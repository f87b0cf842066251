# A verified model of the game server

The server runs rounds of capture-the-flag between teams of robots. A robot that touches a
flag starts a contact; a contact that lasts long enough makes its team the owner of the flag
and earns it points; a round ends when its time is up or when a team has enough points.
Around that core the server matches players with robots, registers robots, recognises flags
by RFID or by the colours a robot drives over, and takes messages from two channels between
ticks of its clock.

## How it is organised

Everything is modelled twice. The classes follow the program: objects with fields that are
updated in place, maps of objects, loops over them. Beside them there are small state
machines over values, and every method that changes state promises that the value its
objects stand for makes exactly the step of the machine. The properties are theorems about
all runs of the machines.

| file | contents |
|---|---|
| `Objects.dfy` | teams, items and their registry, robots, players, contacts; how maps and lists of them are tied to values |
| `Game.dfy` | the game and the flag detectors |
| `Callbacks.dfy` | what the Hello, Register and RobotState messages do to the game |
| `Server.dfy`, `Channels.dfy`, `Ports.dfy`, `Framing.dfy`, `Clock.dfy` | the server's turn, the two channels, the port pool, the wire format, the stand-alone timer |
| `Round.dfy` | the round machine: contacts, items, scores, time |
| `Effects.dfy` | what every operation of the round does, field by field |
| `Witness.dfy`, `Captures.dfy`, `Scores.dfy`, `Timing.dfy`, `CarryOver.dfy`, `Lifecycle.dfy`, `TimedEnd.dfy` | theorems about runs of rounds |
| `Cases.dfy` | short histories that reach the states the exact conditions speak of |
| `Detector.dfy`, `Sightings.dfy` | the colour machine, and sensors through to contacts |
| `Roster.dfy`, `RosterEffects.dfy`, `Matching.dfy`, `Allocation.dfy`, `FreshIds.dfy` | robots, players, registrations, generated ids |
| `ItemIndex.dfy` | the RFID and colour indexes against scans of the item list |
| `Turns.dfy`, `Messages.dfy`, `Serving.dfy` | the main loop: what it, the messages and the agents' commands do to the game, and that runs of the server are runs of it |
| `Addressing.dfy`, `StartUp.dfy` | which team a robot's messages count for; a server as it is configured |
| `Text.dfy`, `Options.dfy` | the order of map keys, and an option type |

Times are integers in microseconds. Fixed-width arithmetic is written out: points are
truncated to 16 bits and scores to 32, the remaining time is a signed difference read as an
unsigned 64-bit number, the port counter is 16 bits wide and the candidate index of a
generated id 32. C++ destructors are methods that run where the program destroys the object: a
contact is destroyed when its map entry is erased or replaced, in the latter case after its
successor has been constructed. A weak pointer to a player is a reference that counts as
expired once the players' map has let go of that very object. Iteration over a `std::map`
follows the sorted keys.

Histories are sequences of operations: touching and leaving items, ticks, starts, stops,
clock readings, agents' edits of scores and durations, new teams and robots, Hellos,
registrations, removals. Theorems that need some of these to be absent say so.

## What turns out false, and exactly when

- The colour detector does not match the history of readings when an item has the
  frontier's own colour; otherwise it always does (`Detector.DetectorRefinesHistory`).
- A live contact of another team than the owner's does not mean that its item is STARTED: the
  robot may have touched it twice, another robot may have let go of it, the round may have
  been stopped. When exactly an item is STARTED is `Captures.AfterOperation` for one operation
  and `Captures.CapturesFollowHistory` for whole histories.
- A round does not earn all its captures itself, since stopping keeps the contacts: it can
  capture without another touch exactly when it has a contact with an item its team does not
  own (`CarryOver.OldTouchesPay`).
- A step ends a round by time only during the one second in which the unsigned remaining
  time is zero; a round that is not stepped in that second runs on, because a step comes late
  or because its duration is cut below what has passed (`TimedEnd.StepStopsExactlyWhen`,
  `TimedEnd.OvershootRunsOn`, `Cases.Shortened`).
- An unforced start can leave a game running with a winner, exactly when the game had
  stopped with one (`Lifecycle.UnforcedStart`). Both callers in the server force the start, so
  this does not happen there.
- Robot ids stop being distinct exactly when a robot is added with a given id that is in use
  (`Matching.AddRobotKeepsIdsDistinct`). The ids of a configuration are distinct and agents
  give none, so this does not happen in the server (`StartUp.ConfiguredIdsDistinct`,
  `Serving.ServedIdsDistinct`).
- Two temporary ids share a robot exactly when one of them registered while the first
  unregistered robot was the other's (`Allocation.RegisteringKeepsDistinct`,
  `Allocation.RegistrationsStayDistinct`): after an unregistering, or after a removal and an
  addition of the same name.
- A robot's messages count for another team exactly when it was added with an id that a robot
  of that team had, even one removed since (`Addressing.CountsForOwnTeam`). Generated ids are
  fresh among the present robots only (`Addressing.RemovedIdIsReused`).
- A message survives the wire exactly when its routing id and its type hold no space
  (`Framing.ParseOfPrint`).
- The loop that builds the port range ends exactly when the range ends below 65535
  (`Ports.CountingEnds`).

## Model

| member | source | states |
|---|---|---|
| `Witness.EveryCaptureIsBacked` | src/orwell/game/Game.cpp:475-512 | In every state that any history can reach, an item in STARTED has a live contact on it by a robot of the item's capturing team, and that team is not the owner |
| `Witness.NewGameIsBacked` | src/orwell/game/Contact.cpp:17-57 | The same for every history of a newly made game |
| `Witness.TouchShowsStarted` | src/orwell/game/Game.cpp:497-506 | A touch of an item that another team owns leaves a live contact of the touching robot, with the item FAILED if and only if the robot was already touching that very item, and STARTED otherwise |
| `Captures.AfterOperation` | src/orwell/game/Game.cpp:475-512 | After any operation an item is STARTED if and only if the operation is a touch of it by a robot of another team than its owner's with no contact on it, or it was STARTED and no robot with a contact on it releases or touches anything, no running round is stopped, restarted or ticked with its time up or a leader, and no contact on it falls due for another team than its owner |
| `Captures.CapturesFollowHistory` | src/orwell/game/Item.cpp:203-247 | At any point of any history an item is STARTED if and only if some such touch of it has been followed by nothing of the kind |
| `Captures.AfterTick` | src/orwell/game/Game.cpp:313-318 | A tick leaves an item STARTED if and only if it was, no contact on it falls due for another team than its owner, and the round, if it runs, has time left and nobody leading once the captures are made |
| `Effects.Releasing` | src/orwell/game/Contact.cpp:31-37 | Letting go leaves the item of the robot's contact FAILED, whatever it was, with owner and captor unchanged, removes the contact, and does nothing else |
| `Effects.Touching` | src/orwell/game/Game.cpp:497-506 | For every item the owner, the captor and the phase after a touch, the contact with its deadline, and nothing else: another team's item is STARTED for the robot's team, then the item of the robot's former contact is FAILED |
| `Effects.Handling` | src/orwell/game/Game.cpp:475-495 | For every item the owner, the captor and the phase after a pass, for every team its score by the captures logged, for every contact whether it is left |
| `Effects.Ticking` | src/orwell/game/Game.cpp:313-318 | A tick is the pass, followed by a stop exactly if no second is left or some team has at least the winning score |
| `Effects.Winning` | src/orwell/game/Game.cpp:418-436 | With time left a team that alone has at least the winning score is named; if there is none, or no time, the winner stays what it was |
| `Effects.Stopping` | src/orwell/game/Game.cpp:195-209 | A running round that is stopped has every item PENDING without owner and captor, and is otherwise the same |
| `Effects.Starting` | src/orwell/game/Game.cpp:150-193 | What a start, forced or not, does to every field of a running or stopped round |
| `Effects.SettingScore` | src/orwell/proxy/AgentProxy.cpp:380-395 | An edit sets exactly the given score, of a team that there is and has a name |
| `Cases.TouchedAgain` | src/orwell/game/Game.cpp:497-506 | A new game can reach a state where a robot's second touch has left the item FAILED under its live contact |
| `Cases.ReleasedByAnother` | src/orwell/game/Contact.cpp:31-37 | A new game can reach a state where another robot's release has left the item FAILED under a live contact that was never aborted |
| `Cases.StoppedUnderContact` | src/orwell/game/Game.cpp:195-209 | A new game can reach a state where a stopped round has left the item as new under a live contact |
| `Scores.ScoresAreConserved` | src/orwell/game/Item.cpp:232-240 | In every reachable state each owner is the last captor since the last reset, no logged capture was by the owner of the moment, and each score is what its logged changes add up to |
| `Scores.CapturesAlternate` | src/orwell/game/Item.cpp:232-240 | Two consecutive captures of an item with no reset between them are never by the same team |
| `Scores.ScoreIsPointsTimesCaptures` | src/orwell/game/Team.cpp:42-61 | Wrapping at every event or once at the end is the same: a score is the base it was set to plus points mod 2^16 times captures, mod 2^32 |
| `Scores.ScoreConservation` | src/orwell/game/item/Flag.cpp:47-50 | After any history without score edits each team's score is (points mod 2^16) times its captures since the scores were last reset, mod 2^32 |
| `Scores.ScoreInClosedForm` | src/orwell/game/Team.cpp:42-61 | The same closed form with agents' edits, counted from the team's last edit or reset |
| `Timing.ContactsFollowHistory` | src/orwell/game/Game.cpp:475-512 | A robot has a contact if and only if some touch of its has been neither dropped, replaced nor matured since, and the entry records that touch's team, item and deadline |
| `Timing.NoneOverdue` | src/orwell/game/Game.cpp:475-495 | After handling the contacts none that is left has a stop time in the past |
| `Timing.EveryCaptureWasEarned` | src/orwell/game/Contact.cpp:39-57 | Every capture ever logged, also one of several in a pass or in the tick that ends the round, comes from a step that is the first to be later than the deadline of a pending touch of the item by a robot of that team |
| `Timing.OwnershipIsLogged` | src/orwell/game/Item.cpp:232-240 | An item gets a new owner by a step only, and its capture by that owner is logged there |
| `Timing.EveryEarnedCaptureHappens` | src/orwell/game/Game.cpp:475-495 | Conversely at that step the contact is gone, the robot's team has captured the item if the item was another team's before the pass or after a contact with a lower robot id, and the item is left with the team of the greatest robot id whose contact with it falls due |
| `Timing.PassCapturesExactly` | src/orwell/game/Game.cpp:475-495 | A pass logs the capture of an item by a team if and only if a contact of the team with it falls due while the item is another team's, before the pass or through a contact of another team with a lower robot id |
| `Text.LessIs` | src/orwell/game/Game.cpp:475-480 | Robot ids are visited in dictionary order: a proper prefix first, otherwise by the first character that differs |
| `Timing.OwnerAfterHandling` | src/orwell/game/Game.cpp:475-495 | When several contacts with one item fall due in one pass, the last robot id in order decides its owner |
| `CarryOver.CapturesOfTheRound` | src/orwell/game/Game.cpp:195-209 | A capture in a round comes from a touch of that round, unless the robot's contact with the item is one that the round began with |
| `CarryOver.OldTouchesPay` | src/orwell/game/Game.cpp:195-209 | A running round can still capture something without another touch if and only if some robot is in contact with an item its team does not own |
| `Cases.CarriedIntoNextRound` | src/orwell/game/Game.cpp:150-209 | A new game can reach a round that has just been started over such a contact |
| `Lifecycle.TickOutcome` | src/orwell/game/Game.cpp:407-442 | A tick leaves the game running if and only if it ran, time is left and every score is below the winning one after the captures, and then changes nothing else; with time left a team that alone has at least the winning score is named, otherwise nobody is |
| `Lifecycle.RunningMeansNoLeader` | src/orwell/game/Game.cpp:407-442 | A tick that leaves the game running leaves every score below the winning one |
| `Lifecycle.RoundsAreClean` | src/orwell/game/Game.cpp:150-209 | Over every server-driven run: not running means no item is owned, running means no winner |
| `Lifecycle.EveryStartIsFresh` | src/orwell/game/Game.cpp:150-193 | Every forced start in such a run gives zero scores, full time, no winner and no owned item |
| `Lifecycle.StartOutcome` | src/orwell/game/Game.cpp:150-193 | What a forced start resets, and that it leaves the contacts alone |
| `Lifecycle.WinnerWasAlone` | src/orwell/game/Game.cpp:431-436 | A game with a winner was won at a step that found that team with at least the winning score, every other team below it and time left, and has not been stepped or started since |
| `Lifecycle.UnforcedStart` | src/orwell/game/Game.cpp:150-193 | An unforced start leaves a winner in a running game if and only if the game was stopped and had one; no caller of the server leaves a start unforced |
| `Cases.WonAndStopped` | src/orwell/game/Game.cpp:150-193 | A new game can be stopped with a winner, and an unforced start would then leave it running with one |
| `TimedEnd.LastSecond` | src/orwell/game/Game.cpp:127-138 | The unsigned remaining time is zero during exactly one second, counts down before it and exceeds the duration after it |
| `Effects.SecondsAre` | src/orwell/game/Game.cpp:127-138 | Out of a round all whole seconds of the duration are left; in one, what has not passed modulo 2^64 |
| `TimedEnd.StepStopsExactlyWhen` | src/orwell/game/Game.cpp:407-414 | A step leaves the game running if and only if it is not taken in that second and nobody leads |
| `TimedEnd.RoundEndsOnTime` | src/orwell/game/Game.cpp:407-414 | With steps a second apart at most, and new durations that are more than had passed at the last tick, no step while running finds the remaining time wrapped, and the first one at or past the duration stops the game |
| `TimedEnd.OvershootRunsOn` | src/orwell/game/Game.cpp:407-414 | Once past the last second, by a late step or by a cut duration, no later steps end the round by time, however many there are |
| `Cases.Overshot` | src/orwell/game/Game.cpp:127-138 | A new game can reach a tick past its last second, with 2^64 - 1 seconds left, that leaves it running |
| `Cases.Shortened` | src/orwell/game/Game.cpp:145-148 | A new game can reach a tick whose duration was cut below what had passed, with 2^64 - 20 seconds left, that leaves it running |
| `TimedEnd.SharedTick` | src/orwell/game/Clock.cpp:60-80 | One tick taken by game and clock together keeps them in step if and only if it does not skip the last second |
| `TimedEnd.StopsWithTheClock` | src/orwell/game/Clock.cpp:25-80 | Started together and ticked together, densely, with the same duration and without a winner, the game and the clock stop at the same step |
| `Detector.DetectorRefinesHistory` | src/orwell/game/item/FlagDectector.cpp:29-150 | For every sequence of readings the item held is that of the first item colour after the last frontier reading, and the state tells whether the last reading is that colour: this holds if and only if no item has the frontier's colour |
| `Detector.ReportsAlternate` | src/orwell/game/item/FlagDectector.cpp:46-141 | Contacts and drops strictly alternate from a contact on, each drop names the item of the contact before it, and the last contact is unmatched exactly while an item is held |
| `Detector.NewItemMeansContact` | src/orwell/game/item/FlagDectector.cpp:142-149 | An item is returned exactly when a contact with it was reported; the branch for a different item is dead |
| `Detector.FrontierIsColourOne` | include/orwell/game/item/FlagDetector.hpp:32 | A detector is at the frontier exactly after reading colour 1 from outside or inside, and leaves the outside by that colour only |
| `Sightings.EveryContactIsSeen` | src/orwell/callbacks/ProcessRobotState.cpp:156-183 | A robot that reports colours only is in contact with nothing but the item its detector holds, in every run and whatever the other robots report |
| `Sightings.HeldWithoutContactMatured` | src/orwell/game/Game.cpp:475-512 | If such a robot's detector holds an item without a contact, that contact matured at some step, and the detector has held the item ever since |
| `Sightings.VisitedAre` | src/orwell/callbacks/ProcessRobotState.cpp:125-183 | An item is made known exactly if some reading of the message, on or off, has an RFID of it, or some colour makes the detector report a contact with it |
| `Sightings.RfidsDecide` | src/orwell/callbacks/ProcessRobotState.cpp:125-154 | After its RFID readings the robot is in contact with the item of the last known RFID, from then on, if that is on, and in contact with nothing if it is off |
| `Sightings.ColoursAreRead` | src/orwell/callbacks/ProcessRobotState.cpp:156-183 | The robot's own detector reads all the colours in order, and no other detector reads any |
| `Sightings.KnownRobot` | src/orwell/callbacks/ProcessRobotState.cpp:65-83 | A message of a known robot is all its RFID readings and then all its colours, read by the robot's own detector |
| `Sightings.UnknownRobot` | src/orwell/callbacks/ProcessRobotState.cpp:65-72 | A message of an unknown robot changes nothing and makes nothing known |
| `Matching.AlwaysMatched` | src/orwell/game/Robot.cpp:85-133 | Over every run of Hello, add, remove, register and unregister: a robot that holds a live player is the robot that player points to |
| `Matching.OneRobotPerPlayer` | src/orwell/callbacks/ProcessHello.cpp:42-58 | From the empty server on, a live player is held by at most one robot of the game, and points to it |
| `Matching.RepeatedHello` | src/orwell/game/Game.cpp:373-390 | A welcomed player is welcomed with the same robot object again, whatever happened in between short of removing either |
| `Matching.StartsWhenAllAreTaken` | src/orwell/callbacks/ProcessHello.cpp:91-101 | A welcomed ready Hello starts the game if and only if every registered robot then has a live player |
| `RosterEffects.StartingByHello` | src/orwell/callbacks/ProcessHello.cpp:87-101 | The game is started exactly by a ready player that is welcomed when no registered robot is left without a live player |
| `RosterEffects.Greeting` | src/orwell/callbacks/ProcessHello.cpp:42-58 | After a Hello the player is known, it and its robot point to each other, and nothing else has changed |
| `RosterEffects.Choosing` | src/orwell/game/Game.cpp:373-390 | The robot for a player is the last in name order that holds it, or else an available one |
| `RosterEffects.Offering` | src/orwell/game/Game.cpp:348-366 | The available robot is the first in name order that is registered and whose player, if any, is gone |
| `RosterEffects.AddingPlayer` | src/orwell/game/Game.cpp:90-108 | A player with a new name is an object of its own without a robot; a known one stays what it is |
| `RosterEffects.Removing` | src/orwell/game/Game.cpp:301-311 | A removed robot is gone from the robots by name only, a removed player from the players only |
| `RosterEffects.Marking` | src/orwell/proxy/AgentProxy.cpp:421-446 | An agent's mark changes the registration of the named robot and of no other |
| `Matching.AddRobotKeepsIdsDistinct` | src/orwell/game/Game.cpp:259-299 | Adding a robot keeps ids distinct if and only if it is not really added with a given id that is in use |
| `Matching.IdsStayDistinct` | src/orwell/game/Game.cpp:259-299 | Ids are distinct over all runs whose given ids are unused at the time |
| `Serving.ServedIdsDistinct` | src/orwell/proxy/AgentProxy.cpp:403-413 | Ids that are distinct stay so over every run of the server, since agents give none |
| `StartUp.ConfiguredIdsDistinct` | src/orwell/Application.cpp:746-754 | The ids of a configuration, keys of a map and none of them empty, give robots with distinct ids |
| `Matching.HelloKeeps` | src/orwell/callbacks/ProcessHello.cpp:42-58 | A welcome leaves the named robot holding the player and the matching one to one |
| `Allocation.RobotsAreHandedOutInOrder` | src/orwell/callbacks/ProcessHello.cpp:43-101 | However often k newcomers say hello with n robots waiting, whatever teams, players and robots are added in between, exactly the first min(k, n) names to arrive hold a robot, in robot-name order, and no other robot changes |
| `Allocation.RegistrationsAreHandedOutInOrder` | src/orwell/game/Game.cpp:320-346 | However often k new temporary ids register over n unregistered robots, whatever players come, go and say hello in between, exactly min(k, n) are registered, in name order by order of arrival, and the other ids are refused |
| `Allocation.RegistrationsAreStable` | src/orwell/callbacks/ProcessRegister.cpp:43-55 | Without removal or unregistering a temporary id keeps its robot object, and different ids have different robots, over every run |
| `RosterEffects.Registering` | src/orwell/game/Game.cpp:320-346 | A known id gets its robot or throws when that is gone; a new one gets the first unregistered robot in name order, which becomes registered, or is refused if there is none |
| `Allocation.RegisteringKeepsDistinct` | src/orwell/game/Game.cpp:320-346 | A registration keeps the ids' robots distinct if and only if the id is known or the first unregistered robot is not one that a registered id names |
| `Allocation.RegistrationsStayDistinct` | src/orwell/game/Game.cpp:320-346 | Over every run of every operation the ids' robots are distinct at the end if and only if no new id was ever given a robot that another id named |
| `Allocation.UnregisteringSharesRobots` | src/orwell/game/Game.cpp:320-346 | After an agent has unregistered a registered robot the next new id shares it if and only if it comes first among the unregistered ones |
| `Allocation.ReplacingSharesRobots` | src/orwell/game/Game.cpp:301-311 | The same after a registered robot has been removed and one of its name added |
| `FreshIds.TakenIdsAreFew` | src/orwell/game/Game.cpp:444-465 | Pigeonhole: if the first n candidates are all taken there are at least n taken ids |
| `FreshIds.ValueOfDecimal` | src/orwell/game/Game.cpp:453 | A decimal numeral denotes its number, so candidates differ |
| `FreshIds.IdShape` | src/orwell/game/Game.cpp:447-453 | A candidate is the prefix and the digits of its number, with no zero in front |
| `FreshIds.LeastIsUnique` | src/orwell/game/Game.cpp:444-465 | The free candidate below which all are taken is the new id |
| `RosterEffects.AddingRobot` | src/orwell/game/Game.cpp:259-299 | A robot is added exactly under a new name to a known team, unregistered and without a player, with the given id or the first candidate that no robot has |
| `Addressing.CountsForOwnTeam` | src/orwell/game/Game.cpp:259-311 | Over every run a robot that was added and not removed since counts for its own team if and only if its id, when it was added, was not that of a robot of another team, of the roster or no longer |
| `Addressing.ServedCountsForOwnTeam` | src/orwell/game/Game.cpp:259-311 | The same for the robots agents add to a running server |
| `Addressing.RemovedIdIsReused` | src/orwell/game/Game.cpp:444-465 | When the generated id is that of a removed robot of another team, the new robot counts for the removed one's team |
| `Cases.IdReused` | src/orwell/game/Game.cpp:259-311 | A game can reach a world in which a robot has got the id of a removed robot of another team and counts for that team |
| `ItemIndex.IndexesAgreeWithScans` | src/orwell/game/Item.cpp:81-165 | After any creations the RFID index finds the first item created with the RFID and the colour index the only item of the colour, or nothing when there is none |
| `ItemIndex.ItemsAreWhatWasAsked` | src/orwell/game/Item.cpp:113-165 | The list holds, in order, every flag with RFIDs and no colour and the first flag of each colour without RFIDs; a colour or an RFID is indexed exactly if such a flag asked for it |
| `Objects.Item.StartCapture` | src/orwell/game/Item.cpp:203-210 | A touch by another team than the owner's marks the item; a touch by the owner's team changes nothing |
| `Objects.Item.AbortCapture` | src/orwell/game/Item.cpp:212-215 | The item is marked as failed and keeps its owner |
| `Objects.Item.Capture` | src/orwell/game/Item.cpp:232-240 | The owner, the phase and the team's score change together, and only for a team that does not own the item |
| `Objects.Item.Reset` | src/orwell/game/Item.cpp:242-247 | The item is as new |
| `Objects.Team.IncreaseScore` | src/orwell/game/Team.cpp:42-46 | The score wraps at 32 bits |
| `Objects.Team.CaptureItem` | src/orwell/game/Team.cpp:76-79 | Item and score change as by a capture for this team |
| `Objects.Contact.constructor` | src/orwell/game/Contact.cpp:17-29 | The contact runs until start time plus duration, and its item has started to be captured for the robot's team |
| `Objects.Contact.Destroy` | src/orwell/game/Contact.cpp:31-37 | Destroying a contact aborts the capture unless it has matured |
| `Objects.Contact.Step` | src/orwell/game/Contact.cpp:39-57 | A contact matures at the first step later than its stop time, capturing the item; stepping it again is the logic error |
| `Objects.ItemRegistry.CreateItem` | src/orwell/game/Item.cpp:113-165 | The value-level creation on lists and indexes, with exactly the accepted requests giving an item |
| `Objects.ItemRegistry.GetItemByRfid` | src/orwell/game/Item.cpp:81-95 | The indexed item, or none when the RFID is not indexed |
| `Objects.ItemRegistry.GetItemByColour` | src/orwell/game/Item.cpp:97-111 | The indexed item, or none when the colour is not indexed |
| `Objects.ItemRegistry.ResetAllItems` | src/orwell/game/Item.cpp:172-178 | Every item is as new |
| `Game.Game.CreateItem` | src/orwell/Application.cpp:756-766 | A created item joins the list, the indexes and the round as new, at any time |
| `Round.ItemsMayComeLast` | src/orwell/Application.cpp:723-766 | A game whose items are created after its teams and robots is the game that has them from the start |
| `Game.Game.SetTime` | src/orwell/game/Game.cpp:397-400 | The round's time is the given one and nothing else changes |
| `Game.Game.GetSecondsLeft` | src/orwell/game/Game.cpp:127-138 | The remaining seconds of the round, with the unsigned wrap |
| `Game.Game.SetDuration` | src/orwell/game/Game.cpp:145-148 | The round's duration is the given one and nothing else changes |
| `Game.Game.Start` | src/orwell/game/Game.cpp:150-193 | The round is started as the machine does it: forced, it first loses its winner, its points and its owners |
| `Game.Game.Stop` | src/orwell/game/Game.cpp:195-209 | A running round stops and all its items are reset; contacts are kept |
| `Game.Game.AddTeam` | src/orwell/game/Game.cpp:211-221 | A new team enters the round with no points, and the roster |
| `Game.Game.AddRobot` | src/orwell/game/Game.cpp:259-299 | The robot enters the roster with its given or least unused id, and the round and the detectors unless that id is already known there |
| `Game.Game.RemoveRobot` | src/orwell/game/Game.cpp:301-311 | The robot leaves the map by name only |
| `Game.Game.Step` | src/orwell/game/Game.cpp:313-318 | A step is one tick of the round |
| `Game.Game.GetRobotWithoutRealRobot` | src/orwell/game/Game.cpp:320-346 | The robot already registered under the id, or the first unregistered one, which it notes; it throws when the noted robot is gone |
| `Game.Game.GetAvailableRobot` | src/orwell/game/Game.cpp:348-366 | The first registered robot without a live player in name order, or none |
| `Game.Game.GetRobotForPlayer` | src/orwell/game/Game.cpp:373-390 | The player's own robot, or else an available one, or none |
| `Game.Game.AddPlayer` | src/orwell/game/Game.cpp:90-108 | The player is known afterwards, and the same object if it was known before |
| `Game.Game.RemovePlayer` | src/orwell/game/Game.cpp:110-120 | The player is gone, and every robot's pointer to that object has expired |
| `Game.Game.StopIfGameIsFinished` | src/orwell/game/Game.cpp:407-442 | The round ends by time or by score as the machine does it |
| `Game.Game.WinningTeams` | src/orwell/game/Game.cpp:418-426 | Exactly the teams whose score is at least the winning one, in name order |
| `Game.Game.GetNewRobotId` | src/orwell/game/Game.cpp:444-465 | The least unused candidate, found among the first |robots| + 1 |
| `Game.Game.HandleContacts` | src/orwell/game/Game.cpp:475-495 | The pass over the contacts matures, in robot-id order, those that are due |
| `Game.Game.HandleContact` | src/orwell/game/Game.cpp:480-493 | One contact is stepped and erased if it matured; the logic error is never met |
| `Game.Game.RobotIsInContactWith` | src/orwell/game/Game.cpp:497-506 | The new contact starts before the one it replaces is destroyed, as in the machine |
| `Game.Game.RobotDropsContactWith` | src/orwell/game/Game.cpp:508-512 | The robot's contact, if any, is destroyed with its entry |
| `Game.Game.SetTeamScore` | src/orwell/proxy/AgentProxy.cpp:380-395 | An agent sets the score of a team of the game |
| `Game.Game.SetRegistered` | src/orwell/proxy/AgentProxy.cpp:421-443 | An agent marks a robot as registered or not |
| `Game.FlagDetector.SetColour` | src/orwell/game/item/FlagDectector.cpp:29-150 | The detector and the returned item are those of the colour machine, and the game is told exactly its report |
| `Callbacks.ProcessHello.Execute` | src/orwell/callbacks/ProcessHello.cpp:35-127 | Roster, round and reply after a Hello, with the start if and only if the welcomed player is ready and no registered robot is free |
| `Callbacks.ProcessRegister.Execute` | src/orwell/callbacks/ProcessRegister.cpp:35-66 | The roster after a registration, and the robot's id and team, an empty reply or the exception |
| `Callbacks.ProcessRobotState.Execute` | src/orwell/callbacks/ProcessRobotState.cpp:65-123 | RFID readings and then colours act on contacts and detectors in message order; the visited items are those found on the way; unknown robots are refused |
| `Callbacks.ProcessRobotState.LookForRfid` | src/orwell/callbacks/ProcessRobotState.cpp:125-154 | Every known RFID of the message touches or leaves its item, in order |
| `Callbacks.ProcessRobotState.LookForColour` | src/orwell/callbacks/ProcessRobotState.cpp:156-183 | Every colour of the message passes through the robot's detector, in order |
| `Clock.Clock.GetSecondsLeft` | src/orwell/game/Clock.cpp:25-30 | The remaining seconds, with the unsigned wrap |
| `Clock.Clock.Start` | src/orwell/game/Clock.cpp:32-41 | A clock that does not run starts now; one that runs is unchanged |
| `Clock.Clock.Stop` | src/orwell/game/Clock.cpp:43-50 | The clock does not run |
| `Clock.Clock.TickDelta` | src/orwell/game/Clock.cpp:52-58 | A running clock advances by the delta and stops once the duration has passed |
| `Clock.Clock.Tick` | src/orwell/game/Clock.cpp:60-66 | A running clock reads the time and stops once the duration has passed |
| `Clock.Clock.CheckReachedDuration` | src/orwell/game/Clock.cpp:74-80 | The clock goes on running if and only if the duration has not passed |
| `Clock.Ticking` | src/orwell/game/Clock.cpp:60-80 | A ticked clock runs on exactly if it ran and its duration has not passed |
| `Clock.Remaining` | src/orwell/game/Clock.cpp:25-30 | The seconds left are those of the duration, or of what has not passed of it, rounded up |
| `Channels.ProcessedInTime` | src/orwell/Server.cpp:88-101 | A message with k before it is processed within 2(k + 1) calls, one fewer if its channel is first, whatever arrives, as the (k + 1)-th of its channel |
| `Channels.BusyChannelsShare` | src/orwell/Server.cpp:88-101 | While both channels are busy each gets every other call exactly, so the bound is tight |
| `Channels.FirstInFirstOut` | src/orwell/Server.cpp:182-210 | What was processed of a channel followed by what waits is what waited followed by what arrived |
| `Channels.CallTakesOne` | src/orwell/Server.cpp:88-101 | A call takes exactly one message if any is waiting on either channel, and none otherwise |
| `Channels.FirstAlternates` | src/orwell/Server.cpp:99 | The channel tried first flips with every call |
| `Channels.Inbox.TakeMessageIfAvailable` | src/orwell/Server.cpp:88-101 | The message taken is the oldest of the first channel in order that has one, and leaves its queue |
| `Channels.Inbox.Receive` | src/orwell/Server.cpp:182-210 | The oldest message of the channel, or none |
| `Channels.Inbox.NextPermutation` | src/orwell/Server.cpp:99 | The two channels change places |
| `Turns.LoopIsServerDriven` | src/orwell/Server.cpp:132-140 | Whatever is asked of it, the loop steps the game only while it runs |
| `Turns.DueAfterTic` | src/orwell/Server.cpp:116-117 | A turn ticks exactly if at least a tic has gone by since the last tic |
| `Turns.LoopKeepsRoundsClean` | src/orwell/Server.cpp:103-142 | Over every run of the loop: no owned item out of a round, no winner during one |
| `Turns.RoundsEndOnTime` | src/orwell/Server.cpp:117-141 | With clock readings a gap apart at most, tic plus gap within a second and durations not cut below what had passed, the steps are dense and no round outlives its duration by a whole tic |
| `Messages.MessageIsRequests` | src/orwell/callbacks/ProcessDecider.cpp:59-106 | The effect of any message on the round is a history of touches, releases and forced starts |
| `Messages.CommandIsRequests` | src/orwell/proxy/AgentProxy.cpp:355-550 | The effect of any agent's command on the round is a history of requests, and only one command changes the duration |
| `Messages.RoundCommands` | src/orwell/proxy/AgentProxy.cpp:513-550 | What the commands that start, stop, time and score do to the world, and nothing else |
| `Messages.RosterCommands` | src/orwell/proxy/AgentProxy.cpp:361-485 | What the commands on teams, players and robots do to the world, and nothing else |
| `Messages.HandlingMessages` | src/orwell/callbacks/ProcessDecider.cpp:59-106 | What each kind of message does to round, detectors and roster, and nothing else |
| `Messages.RobotStateIsInputs` | src/orwell/callbacks/ProcessRobotState.cpp:65-183 | A robot's message is the same as its RFID readings and then its colours, each taken on its own |
| `Serving.ServedIsLoop` | src/orwell/Server.cpp:103-142 | Any run of the server, with any messages and agents' commands, is a run of the loop on the round, with the same tics |
| `Serving.ServedRoundsAreClean` | src/orwell/Server.cpp:103-142 | So between rounds nothing is owned and during one nobody has won, whatever is received and commanded |
| `Serving.ServedIsSound` | src/orwell/Server.cpp:103-142 | Whatever the server receives and is commanded, every capture in progress has a live contact behind it, owners and scores are what the captures and edits add up to, and players and robots stay matched |
| `StartUp.ConfiguredIsReady` | src/orwell/Application.cpp:716-768 | A server with any items, teams and properly named robots starts not running, clean, sound, matched, with distinct ids, the same teams on both sides and nothing held or waiting |
| `StartUp.ConfiguredIsThere` | src/orwell/Application.cpp:740-754 | The configured teams and no others are there, and every configured robot of such a team that is the first of its name, unregistered, with its id, which leads to its team |
| `StartUp.EveryServerIsSound` | src/orwell/Server.cpp:103-142 | So every configured server stays sound, clean and with distinct ids whatever it receives and is commanded |
| `Serving.ServedIsTaken` | src/orwell/Server.cpp:103-142 | Any run of the server is, on the round and the detectors together, the run of its inputs one by one |
| `Serving.ServedContactsAreSeen` | src/orwell/callbacks/ProcessRobotState.cpp:125-183 | A robot that sends the server no RFID reading is never in contact with anything but the item its detector holds, and if that holds one without a contact, a tick has matured it |
| `Serving.ServedRoundsEnd` | src/orwell/Server.cpp:103-142 | A server that turns often enough, and whose agents set no duration shorter than what has passed, lets no round outlive its duration by a whole tic |
| `Serving.EveryMessageIsServed` | src/orwell/Server.cpp:117-129 | A message with k before it has been processed once 2(k + 1) turns were not due for a tick, and none is lost or reordered |
| `Server.Server.TakeTurn` | src/orwell/Server.cpp:103-142 | The world, the channels and the previous tic after a turn that obeys agents and ticks or processes a message; whether processing threw, and then that only the message is gone |
| `Serving.Turning` | src/orwell/Server.cpp:103-142 | A turn is an early command, the clock, and then, exactly if a tic has gone by, a late command and a tick of a running game, or else the message that is next |
| `Serving.ThrowingIs` | src/orwell/callbacks/ProcessRegister.cpp:43-45 | The one message that throws is the registration of a known id whose robot is gone |
| `Server.Server.FeedAgentProxy` | src/orwell/Server.cpp:168-180 | The world after at most one agent's command |
| `Server.Server.ObeyCommand` | src/orwell/proxy/AgentProxy.cpp:355-550 | The world after a command |
| `Server.Server.Process` | src/orwell/callbacks/ProcessDecider.cpp:59-106 | The world after a message has gone to its callback |
| `Ports.CountingEnds` | src/orwell/Application.cpp:391-395 | The 16-bit counter passes the end of the range if and only if the range ends below 65535 |
| `Ports.LastPortIs` | src/orwell/Application.cpp:381-384 | A range without an end, or that ends at zero, is one port |
| `Ports.ReadPorts` | src/orwell/Application.cpp:373-396 | The range highest first, a missing end meaning one port; an inverted range is refused, and one that ends at the highest port never ends |
| `Ports.NoPortIsLost` | src/orwell/Application.cpp:823-837 | Available ports and, backwards, taken ones make up the same list for ever |
| `Ports.HandedFromTheBack` | src/orwell/Application.cpp:823-837 | The n-th port handed out is the n-th from the end, and zero when there are no more |
| `Ports.EveryRobotGetsTwoPorts` | src/orwell/Application.cpp:740-754 | When the size check passes the robots get the lowest ports of the range, two each, all different, and none zero if and only if the range does not begin there |
| `Ports.WithoutEnoughPorts` | src/orwell/Application.cpp:546-550 | No robot gets port zero if and only if the size check passes |
| `Ports.Application.PopPort` | src/orwell/Application.cpp:823-837 | The last available port becomes the last taken one; zero when there is none |
| `Ports.Application.InitRobots` | src/orwell/Application.cpp:740-754 | Each robot gets the next two ports, in either order |
| `Framing.ParseOfPrint` | src/orwell/com/Socket.cpp:98-132 | Parsing a printed message gives it back if and only if its routing id and type hold no space |
| `Framing.PrintOfParse` | src/orwell/com/Socket.cpp:98-132 | Printing a parsed frame gives it back if and only if it holds two spaces |
| `Framing.ParsedBySpaces` | src/orwell/com/Socket.cpp:110-122 | A frame with one space gives the routing id only, one without gives nothing |
| `Framing.FramesAreDistinct` | src/orwell/com/Socket.cpp:156-168 | No two sendable messages share a frame |
| `Framing.PrintedIs` | src/orwell/com/Socket.cpp:156-168 | The frame is the three parts with a space between them |
| `Framing.Socket.Send` | src/orwell/com/Socket.cpp:156-168 | The frame sent is the printed message |
| `Framing.Socket.Receive` | src/orwell/com/Socket.cpp:98-132 | The message received is the parsed frame; without a frame nothing is received |

## Left out

- Sockets, UDP broadcast, processes, signals, logging and sleeping. Channels are queues; the clock's readings are inputs.
- Protobuf and JSON. Messages are datatypes; a reading of an RFID is on or off.
- The syntax of the agent's commands, and the get, list, view and reply classes. Commands arrive parsed.
- Messages.CommandIsRequests: the commands that remove a team or stop the application are not among the commands.
- Server.Server.ObeyCommand: the same, and the commands that set a robot's video or a player's address.
- The agent's commands that remove a team, stop the application, or set a robot's video or a player's address.
- The condition and the waiting of the server's inner loop: `Server.TakeTurn` is one turn of it, and `Serving.Served` folds any number of turns. A command before the clock is read is allowed in every turn, not only in the first after a message.
- A message that arrives while a call is looking at the two channels counts as arriving before or after the call.
- Callbacks.ProcessHello.Execute: does not model the video address and port of the Welcome, nor the exception for a video URL whose port is not a number, nor the player's address.
- Callbacks.ProcessRegister.Execute: does not model that the robot keeps the video URL of the message.
- Callbacks.ProcessRobotState.Execute: the published player states are represented by the set of visited items; battery and ultrasound are not modelled.
- Server.Server.TakeTurn: assumes fewer than 2^32 - 1 robots, so that the 32-bit candidate index of a generated id cannot wrap.
- Game.Game.GetNewRobotId: assumes fewer than 2^32 robots, for the same reason.
- Framing.Socket.Receive: receiving is from a list of whole frames; a failing or blocking socket is not modelled.
- The game's time before the first setTime is unset in the program; here it is any given time.
- Starting and stopping video, and the abort of the process when it fails to start.
- A team's own list of its robots, map limits, image reading and the game's textual form.
- Removing a team leaves the references of its robots dangling. The neutral team that stands in for unknown ones is not modelled; an edit of an unknown team's score changes no team of the game.
- Clearing the item indexes without the item list (`InitializeStaticMaps`), which nothing calls.
- The exact order of the two `popPort` calls in one argument list is unspecified in C++; `Ports.Application.InitRobots` holds for either.
