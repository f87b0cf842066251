/** Generated robot ids: the least "robot_k" not yet in use. */
module FreshIds {

  /** std::to_string of a natural number. */
  function Decimal(n: nat): (s: string)
    ensures |s| > 0
  {
    if n < 10 then [Digit(n)] else Decimal(n / 10) + [Digit(n % 10)]
  }

  function Digit(d: nat): char
    requires d < 10
  {
    "0123456789"[d]
  }

  /** The number a decimal numeral denotes. */
  function Value(s: string): nat {
    if s == [] then 0 else 10 * Value(s[..|s| - 1]) + DigitValue(s[|s| - 1])
  }

  function DigitValue(c: char): nat {
    if '0' <= c <= '9' then (c - '0') as nat else 0
  }

  lemma {:induction false} ValueOfDecimal(n: nat)
    ensures Value(Decimal(n)) == n
  {
    if n >= 10 {
      ValueOfDecimal(n / 10);
      assert Decimal(n)[..|Decimal(n)| - 1] == Decimal(n / 10);
    } else {
      assert Decimal(n)[..0] == [];
    }
  }

  /** A numeral is made of digits, and has no zero in front. */
  lemma {:induction false} DecimalDigits(n: nat)
    ensures forall i | 0 <= i < |Decimal(n)| :: '0' <= Decimal(n)[i] <= '9'
    ensures Decimal(n)[0] == '0' ==> Decimal(n) == "0"
  {
    if n >= 10 {
      DecimalDigits(n / 10);
      ValueOfDecimal(n / 10);
      assert Decimal(n)[0] == Decimal(n / 10)[0];
      assert Value("0") == 0 by {
        assert "0"[..0] == [];
      }
    }
  }

  function IdOf(k: nat): string {
    "robot_" + Decimal(k)
  }

  /** The prefix, and the number in digits. */
  lemma IdShape(k: nat)
    ensures "robot_" <= IdOf(k) && |IdOf(k)| > 6 && Value(IdOf(k)[6..]) == k
    ensures forall i | 6 <= i < |IdOf(k)| :: '0' <= IdOf(k)[i] <= '9'
    ensures IdOf(k)[6] == '0' ==> IdOf(k) == "robot_0"
  {
    assert IdOf(k)[6..] == Decimal(k) && IdOf(k)[..6] == "robot_";
    ValueOfDecimal(k);
    DecimalDigits(k);
  }

  lemma IdsDiffer(j: nat, k: nat)
    requires IdOf(j) == IdOf(k)
    ensures j == k
  {
    assert IdOf(j)[6..] == Decimal(j) && IdOf(k)[6..] == Decimal(k);
    ValueOfDecimal(j);
    ValueOfDecimal(k);
  }

  /** Pigeonhole: n taken ids need n robots. */
  lemma {:induction false} TakenIdsAreFew(ids: set<string>, n: nat)
    requires forall j | 0 <= j < n :: IdOf(j) in ids
    ensures n <= |ids|
  {
    if n > 0 {
      var last := IdOf(n - 1);
      forall j | 0 <= j < n - 1 ensures IdOf(j) in ids - {last} {
        if IdOf(j) == last {
          IdsDiffer(j, n - 1);
        }
      }
      TakenIdsAreFew(ids - {last}, n - 1);
    }
  }

  function LeastFree(ids: set<string>, from: nat): (k: nat)
    requires forall j | 0 <= j < from :: IdOf(j) in ids
    ensures IdOf(k) !in ids && from <= k <= |ids|
    ensures forall j | 0 <= j < k :: IdOf(j) in ids
    decreases |ids| - from
  {
    TakenIdsAreFew(ids, from);
    if IdOf(from) !in ids then from
    else
      TakenIdsAreFew(ids, from + 1);
      LeastFree(ids, from + 1)
  }

  function NewId(ids: set<string>): (id: string)
    ensures id !in ids && id != ""
    ensures exists k :: 0 <= k <= |ids| && id == IdOf(k) && forall j | 0 <= j < k :: IdOf(j) in ids
  {
    IdOf(LeastFree(ids, 0))
  }

  lemma LeastIsUnique(ids: set<string>, k: nat)
    requires IdOf(k) !in ids && forall j | 0 <= j < k :: IdOf(j) in ids
    ensures NewId(ids) == IdOf(k)
  {
  }
}
