# Clockwork Crypts, modelled in Dafny

Clockwork Crypts is a turn-based puzzle crawler on a 12x12 board. The player walks
through walls, doors, levers, treasures and an exit. The board also holds gears whose
phase turns through 0..3. Every sixth successful action the whole board "ticks":

- every gear turns one notch;
- each door re-derives its open flag from its gear;
- each moving platform whose gear shows its phase swaps its two cells.

The repository also contains three small tools, and their integer and string logic is
modelled too:

- a fixed starting level;
- a command runner that drives the game through key presses, clicks and numbered
  screenshots;
- a generator of 3D assets whose terrain is a triangulated vertex grid.

The project has five modules, one per source file, plus a shared `Option` type.

- `Clockwork` (`clockwork.dfy`, from `game.py`) is the turn engine.
  - `GameState` is a class with one field per field of the game's state record. The
    board is an `array2<Tile>` indexed `[y, x]`. The entity lists are sequences of
    records, which the methods reassign.
  - `ClockworkCrypts` holds the current state and the snapshot counter. Its methods
    `HandleInput`, `TryMove`, `OperateAdjacentOrWait`, `TickGears` and `CompleteLevel`
    change that state in place.
  - Each method is specified against ghost functions of the old state:
    - `CanEnter` says when a cell can be entered;
    - `PickupAt` says which treasure entering a cell collects;
    - `FirstAdjacentLever` says which lever the space key operates.
  - The lookups by position (`get_door_at` and the others) are the loop `FindAt`. It is
    specified by the function `IndexAt`, the index of the first record on a cell.
- `LevelGenerator` (`level_generator.dfy`, from `game_state_generator.py`) builds the
  fixed starting level step by step in a 12x12 array.
  - Each pass (border, internal walls, gears, doors, levers, treasures, exit) is proved
    against a layer function.
  - The finished board is proved equal to `StartTile`, which says which placement wins
    on each cell.
  - Lemmas about `StartTile` and the start records state the level's invariants.
- `Automation` (`automation.dfy`, from `automation.py`) covers the command runner.
  - It models the whitespace stripping and splitting and the integer conversion that
    the command parser relies on.
  - `ParseCommand` reads a command line into a `Command`.
  - `MapKey` is the key-name table.
  - `ScreenshotName` builds the zero-padded screenshot file name.
  - `GameAutomation` holds the screenshot counter and a log of `Effect`s: key presses,
    clicks, pauses and captures. `ExecuteCommand` is proved to append exactly
    `CommandEffects` of the parsed command.
- `AssetGenerator` (`asset_generator.dfy`, from `generate_assets.py`) covers the
  terrain's vertex and face index construction, proved against recursive reference
  lists, and the manifest of the asset pack.

The model follows the code. Two behaviours of the code deserve mention:

- When the exit is reached, the bonus, the two key fragments, the level increment and
  the reset move streak are all written to the state being left. That state is then
  replaced by a freshly generated level. `CompleteLevel` states exactly this.
- A door whose gear id is out of range keeps its flag on a tick. A lever whose target
  gear id is out of range toggles without turning any gear.

## Model

| member | source | states |
|---|---|---|
| Clockwork.MovingPlatform.Swapped | game.py:438-441 | the moved platform stands on its old target and aims at its old cell, with the unordered pair of cells, the gear and the phase unchanged |
| Clockwork.IndexAt | game.py:457-476 | (also get_gear_at, game.py:563-568) the result is the first index whose record stands on the cell; it is None exactly when no record stands there |
| Clockwork.FindAt | game.py:457-476 | (also get_gear_at, game.py:563-568) the scan over the records returns exactly `IndexAt`, the first record on the cell (get_door_at, get_lever_at, get_treasure_at, get_gear_at) |
| Clockwork.IndexAtOwnCell | game.py:457-476 | (also get_gear_at, game.py:563-568) a record that shares its cell with no other record of its kind is the one the lookup finds there |
| Clockwork.NextPhase | game.py:425 | the next phase lies in 0..3, is phase+1 below 3, wraps 3 to 0, and is congruent to phase+1 modulo 4 |
| Clockwork.AdvancedAt | game.py:409-411 | only the gear with the given id turns one notch; an id past the end of the list changes nothing |
| Clockwork.Refreshed | game.py:428-431 | a door whose gear exists takes the flag "the gear shows the required phase"; any other door is kept; `RefreshAll` and `TickGears` apply it to every door |
| Clockwork.Moved | game.py:434-441 | a platform swaps exactly when its gear exists and shows its phase; `MovedKeepsEnds` proves it keeps its pair of cells, gear and phase |
| Clockwork.MovedKeepsEnds | game.py:434-441 | on a tick a platform either stays or swaps to its target; its pair of cells, gear and phase are kept |
| Clockwork.SwapInvolution | game.py:439-441 | swapping twice restores the platform |
| Clockwork.PhaseAfterIsSum | game.py:424-425 | after k notches a gear shows (phase + k) mod 4 |
| Clockwork.DoorPhaseComesRound | game.py:428-431 | a gear that is only ticked shows any required phase in 0..3 after `WaitTicks` (< 4) ticks |
| Clockwork.PhaseAfterPeriodic | game.py:424-425 | four ticks bring every gear back to the phase it showed |
| Clockwork.LevelBonus | game.py:446-449 | the bonus is 100 per move under the allowance, never negative, and positive exactly when the streak is below the allowance |
| Clockwork.TicksDuringCount | game.py:344-350 | n successful actions from action count a fire exactly (a+n)/6 - a/6 ticks |
| Clockwork.SixActionsOneTick | game.py:344-350 | any six consecutive successful actions fire exactly one tick |
| Clockwork.GameState.constructor | game.py:99-123 | the state is built from one value per field of the record |
| Clockwork.GameState.Passable | game.py:360-373 | a move is allowed exactly when the target is on the board, not a wall, and, if it is a door, the first door record there is open |
| Clockwork.GameState.CanEnter | game.py:360-373 | the guard of a move: on the board, not a wall, and for a door the first door record there is open; `Passable` is proved to compute exactly this |
| Clockwork.GameState.Enter | game.py:375-386 | the player stands on the cell; an uncollected treasure there is marked collected, its value and one key fragment are credited and the cell becomes empty; nothing else changes |
| Clockwork.GameState.CollectTreasure | game.py:380-386 | on a treasure cell, the first treasure record there, if not yet collected, is marked collected, its value and one key fragment are credited and only that cell becomes empty; otherwise nothing changes |
| Clockwork.GameState.PickupAt | game.py:380-382 | a pickup names an existing, not yet collected treasure record |
| Clockwork.GameState.LeverToward | game.py:399-406 | a lever found next to the player names an existing lever record |
| Clockwork.GameState.FirstAdjacentLever | game.py:397-406 | the lever operated is an existing record, the first found looking up, down, left, right |
| Clockwork.AdjacentLever | game.py:397-406 | the loop over the four directions returns exactly `FirstAdjacentLever`, the first lever in the order up, down, left, right |
| Clockwork.Succeeds | game.py:330-344 | W/S/A/D succeed exactly when their target can be entered, space always, other keys and events never; `HandleInput` is proved to report exactly this |
| Clockwork.ClockworkCrypts.constructor | game.py:133-135 | the engine starts on the given state with the snapshot counter at 0 |
| Clockwork.ClockworkCrypts.HandleInput | game.py:328-352 | W/S/A/D try a move and space operates or waits; the action succeeds exactly when `Succeeds` holds; a failed action changes nothing; a successful one adds 1 to the action count and the move streak of the resulting state, fires a tick exactly when the new count is a multiple of 6, and takes one snapshot |
| Clockwork.ClockworkCrypts.TryMove | game.py:354-392 | a blocked move returns false and changes nothing; otherwise the player moves and collects the treasure there; on the exit the left state receives the bonus, fragments, level+1 and a zero streak, and is replaced by the next level |
| Clockwork.ClockworkCrypts.OperateAdjacentOrWait | game.py:394-415 | always succeeds; with a lever adjacent it toggles only the first one and turns only its target gear one notch; doors and everything else are unchanged; phases in 0..3 stay in 0..3 |
| Clockwork.ClockworkCrypts.TickGears | game.py:417-441 | the tick count grows by 1; every gear turns one notch; every door whose gear exists is open exactly when that gear shows its required phase, the others keep their flag; every platform is `Moved`; nothing else changes |
| Clockwork.AdvanceAll | game.py:423-425 | the loop over the gears turns every gear exactly one notch and keeps the list's length |
| Clockwork.RefreshAll | game.py:427-431 | the loop over the doors gives every door whose gear exists the flag "its gear shows the required phase" and leaves the others as they were |
| Clockwork.MoveAll | game.py:433-441 | the loop over the platforms swaps exactly those whose gear exists and shows their phase, and leaves the others as they were |
| Clockwork.ClockworkCrypts.CompleteLevel | game.py:443-455 | the bonus and two fragments are credited only within the allowance, the level grows by 1 and the streak resets, all on the state being left; the engine then holds the next level, untouched |
| LevelGenerator.Stamp | game_state_generator.py:17-19 | writing a tag into the listed cells (only interior ones for walls) leaves every other cell as it was |
| LevelGenerator.BorderedGrid | game_state_generator.py:6-13 | a fresh 12x12 board whose border cells are wall and all others empty |
| LevelGenerator.WalledGrid | game_state_generator.py:15-30 | the bordered board with the interior walls and then the gears written over it |
| LevelGenerator.PlaceDoorsAndLevers | game_state_generator.py:39-49 | doors and then levers written over the gears |
| LevelGenerator.PlaceTreasuresAndExit | game_state_generator.py:65-69 | treasures and then the exit written over the levers |
| LevelGenerator.BuildGrid | game_state_generator.py:3-69 | the finished board is `StartTile` on every cell |
| LevelGenerator.GenerateGameState | game_state_generator.py:1-89 | the starting state has the player at (1,1) on level 1, zero counters, the listed records, an allowance of 35, the player on floor, phases in range and doors agreeing with their gears |
| LevelGenerator.StartCells | game_state_generator.py:22-66 | the cells stamped for each kind of record are exactly the cells of the records, in list order |
| LevelGenerator.StartBorderIsWall | game_state_generator.py:9-13 | every border cell of the finished board is a wall |
| LevelGenerator.StartPlayerOnFloor | game_state_generator.py:73-74 | the player's starting cell is empty |
| LevelGenerator.StartRecordsTagged | game_state_generator.py:29-69 | every gear, door, lever and treasure record stands on a cell with its own tag, and (10,10) is the exit |
| LevelGenerator.StartWallsAndPlatform | game_state_generator.py:16-66 | later placements win: (8,4) is a gear and (6,2) a treasure, the other listed walls stay walls, and the platform's cells are not written |
| LevelGenerator.StartReferencesValid | game_state_generator.py:22-53 | every door, lever, platform and connection refers to an existing gear, and every phase lies in 0..3 |
| LevelGenerator.StartDoorsAgree | game_state_generator.py:33-37 | every door starts closed and its gear does not show its required phase |
| LevelGenerator.StartLookups | game_state_generator.py:22-66 | no two records of a kind share a cell, so the lookup by position finds each door, lever and treasure under its own index |
| Automation.StripLeading | automation.py:91 | the result is a suffix of the input that does not start with whitespace |
| Automation.StripTrailing | automation.py:91 | the result is a prefix of the input that does not end with whitespace |
| Automation.StripLeadingPadding | automation.py:91 | whitespace in front does not change the left-stripped text |
| Automation.StripTrailingPadding | automation.py:91 | whitespace behind does not change the right-stripped text |
| Automation.StripUntrimmed | automation.py:91 | a text that starts and ends with non-whitespace is its own strip |
| Automation.StripLeadingRemovesSpace | automation.py:91 | what left-stripping removes is all whitespace |
| Automation.StripTrailingRemovesSpace | automation.py:91 | what right-stripping removes is all whitespace |
| Automation.StripLeadingAppend | automation.py:91 | left-stripping a concatenation strips the first part, or the second when the first is all whitespace |
| Automation.StripPadding | automation.py:91 | any whitespace around a text is removed by the strip |
| Automation.StripIdempotent | automation.py:91 | stripping twice is stripping once |
| Automation.Strip | automation.py:91 | whitespace at both ends removed; `StripPadding` and `StripIdempotent` state its properties |
| Automation.Word | automation.py:102 | the first word is the longest whitespace-free prefix |
| Automation.SplitWords | automation.py:102 | every word of the split is non-empty and contains no whitespace |
| Automation.WordOf | automation.py:102 | a word followed by whitespace or nothing is read as that word |
| Automation.SplitCons | automation.py:102 | a word followed by a space comes off first |
| Automation.SplitSingle | automation.py:102 | a single word splits into itself |
| Automation.SplitJoined | automation.py:102 | splitting words joined by single spaces gives the words back |
| Automation.DigitValue | automation.py:105 | a digit's value is below 10 and is written as that digit |
| Automation.Digits | automation.py:109 | the decimal form of a number is a non-empty string of digits |
| Automation.IntString | automation.py:109 | the decimal form of an integer is non-empty and contains no whitespace |
| Automation.DigitsRoundTrip | automation.py:109 | reading back the decimal digits of n gives n |
| Automation.ParseIntRoundTrip | automation.py:105 | converting the decimal form of any integer gives the integer back (within the digit limit noted under Left out) |
| Automation.ParseIntUnderscore | automation.py:105 | for any two well-formed digit groups a and b, the literal a_b is accepted and reads as ab |
| Automation.DigitsValueUnderscore | automation.py:105 | an underscore placed between two parts of a literal does not change its value |
| Automation.SignedLiteral | automation.py:105 | a sign followed by a well-formed literal is read with that sign |
| Automation.UnsignedLiteral | automation.py:105 | a well-formed literal without a sign is read as its value |
| Automation.LeadingZerosAccepted | automation.py:105 | a leading zero is accepted and does not change the value read |
| Automation.ParseIntIgnoresPadding | automation.py:105 | whitespace around a literal is ignored |
| Automation.ParseIntRejects | automation.py:105 | an empty text, a bare sign, a misplaced or doubled underscore and a letter are rejected |
| Automation.RejectsLiteral | automation.py:105 | a rejected literal without surrounding whitespace is rejected by the conversion |
| Automation.ParseLiteral | automation.py:105 | an optional sign then a well-formed literal; a result means the text was non-empty; `SignedLiteral`, `UnsignedLiteral` and `ParseIntRejects` state the cases |
| Automation.ParseInt | automation.py:105 | the conversion strips whitespace first; `ParseIntRoundTrip` and `ParseIntIgnoresPadding` state its properties |
| Automation.ParsesAs | automation.py:91 | a command without surrounding whitespace means what its stripped reading says |
| Automation.ParseCommand | automation.py:91-122 | the line is stripped, then read; `ParseIgnoresPadding` proves that surrounding whitespace never changes the reading |
| Automation.ParseStripped | automation.py:94-122 | the source's branch order: "keyboard " prefix, "click " prefix, exact "screenshot", exact "wait", otherwise unknown; `KeyboardStripped`, `ClickStripped`, `ScreenshotExact`, `WaitExact` and `BareKeyboardUnknown` state each branch |
| Automation.ParseClick | automation.py:102-113 | fewer than three words is a format error, two integer words a click, anything else a coordinate error; `ClickParts`, `ClickIgnoresExtraWords` and `ClickBadCoordinate` state the cases |
| Automation.KeyboardStripped | automation.py:94-95 | a stripped "keyboard " line is a key press of all the text after the prefix, spaces included |
| Automation.KeyboardRoundTrip | automation.py:91-95 | a "keyboard " command whose key does not end with whitespace sends exactly that key |
| Automation.NotKeyboard | automation.py:94-101 | a line starting with "click " does not take the keyboard branch |
| Automation.ClickStripped | automation.py:101-102 | a stripped "click " line is read from its whitespace-separated words |
| Automation.ClickWords | automation.py:102 | "click sx sy" splits into exactly those three words |
| Automation.ClickLine | automation.py:101-105 | "click sx sy" is read from exactly the words click, sx and sy |
| Automation.ClickRoundTrip | automation.py:101-107 | a click command built from two integers is a click at exactly those integers (within the digit limit noted under Left out) |
| Automation.ClickParts | automation.py:104-105 | two words that convert to integers make a click at exactly those integers |
| Automation.ClickIgnoresExtraWords | automation.py:103-105 | words after the third never change how a click is read |
| Automation.ParseIgnoresPadding | automation.py:91 | whitespace around a command never changes what it means |
| Automation.ClickMissingCoordinate | automation.py:101-113 | "click" with a single further word is a format error |
| Automation.ClickBadCoordinate | automation.py:104-111 | a coordinate that does not convert to an integer is a coordinate error, and no click is sent |
| Automation.NoCommandPrefix | automation.py:94-101 | a line starting with neither 'k' nor 'c' takes neither prefixed branch |
| Automation.ScreenshotExact | automation.py:115-116 | exactly the line "screenshot" selects a screenshot |
| Automation.WaitExact | automation.py:118-119 | exactly the line "wait" selects a pause |
| Automation.BareKeyboardUnknown | automation.py:94-122 | "keyboard" with no space after it is an unknown command |
| Automation.Lower | automation.py:47 | lower-casing keeps the length and lowers each ASCII capital letter |
| Automation.MapKey | automation.py:36-47 | a key whose lower-case form is in the table is sent under the table's name; any other key is sent exactly as given |
| Automation.LowerIdempotent | automation.py:47 | lowering twice is lowering once |
| Automation.MapKeyIgnoresCase | automation.py:47 | a known key and its lower-case form are sent under the same name |
| Automation.MapKeyExamples | automation.py:36-47 | "ESC" is sent as Escape, "Enter" as Return and "W" as w |
| Automation.MapKeyPassThrough | automation.py:47 | a key outside the table, such as "Left", is sent with its own case |
| Automation.Pad3 | automation.py:20 | the padded count is all digits, at least three of them, and exactly three below 1000 |
| Automation.LeadingZero | automation.py:20 | a leading zero does not change a number's value |
| Automation.DigitsLength | automation.py:20 | numbers below 10, 100 and 1000 have at most one, two and three digits |
| Automation.Pad3Value | automation.py:20 | the padded count reads back as the count |
| Automation.SplitAtSeparator | automation.py:20 | a name of the form a_x, where a has no underscore, can be cut apart at its first underscore in one way only |
| Automation.ScreenshotName | automation.py:20 | screenshot_, the count padded to three digits, _, the action name, .png; `ScreenshotNamesDistinct` proves the name determines count and action |
| Automation.ScreenshotPath | automation.py:20-21 | the name inside the screenshot directory; `ScreenshotPathsDistinct` proves distinct counts give distinct files |
| Automation.ScreenshotNamesDistinct | automation.py:20 | equal screenshot file names have equal counts and equal action names |
| Automation.ScreenshotPathsDistinct | automation.py:19-21 | screenshots taken under different counts never share a file |
| Automation.CommandEffectsShape | automation.py:89-122 | a command captures at most one screenshot, the number it captures is what the counter adds, each capture goes to the next numbered file under the command's action name, and an invalid or unknown command does nothing |
| Automation.CommandEffects | automation.py:89-122 | the effects of each reading: key press or click, then on success a pause and one capture; a capture for "screenshot"; a one-second pause for "wait"; nothing otherwise; `CommandEffectsShape` states its properties |
| Automation.GameAutomation.constructor | automation.py:11-15 | the runner starts with no screenshots taken |
| Automation.GameAutomation.TakeScreenshot | automation.py:17-30 | the counter grows by 1 before the capture, even a failed one; the capture goes to the next numbered file; the path is returned only on success |
| Automation.GameAutomation.SendKeyboardEvent | automation.py:32-54 | one key press under the mapped name; reports the tool's success |
| Automation.GameAutomation.SendClickEvent | automation.py:56-69 | one click at (x, y); reports the tool's success |
| Automation.GameAutomation.ExecuteCommand | automation.py:89-122 | the effects appended are exactly `CommandEffects` of the parsed command, and the counter grows by the screenshots it takes |
| Automation.GameAutomation.ExecuteStripped | automation.py:94-122 | the branch taken on a stripped line appends exactly the effects of its reading and adds the screenshots it takes to the counter |
| Automation.GameAutomation.RunKeyboard | automation.py:94-99 | a key press, then a pause and a screenshot only when the press succeeded |
| Automation.GameAutomation.ClickAt | automation.py:106-109 | a click, then a pause and a screenshot only when the click succeeded |
| Automation.GameAutomation.RunClick | automation.py:102-113 | the click is sent only when both coordinates convert; too few words or a bad coordinate does nothing |
| AssetGenerator.RowVertices | generate_assets.py:109-110 | one vertex per column of the row |
| AssetGenerator.RowVertexAt | generate_assets.py:109-110 | column j of a row is grid point (i, j) |
| AssetGenerator.GridVerticesLength | generate_assets.py:107-110 | the first r rows hold r*n vertices |
| AssetGenerator.GridVertexAt | generate_assets.py:107-110 | grid point (i, j) sits at index i*n+j |
| AssetGenerator.GridVerticesAt | generate_assets.py:107-110 | the vertex list has one entry per grid point, in row-major order |
| AssetGenerator.RowFaces | generate_assets.py:115-123 | two triangles per quad of the row |
| AssetGenerator.QuadShape | generate_assets.py:117-123 | the quad's triangles are [v1,v3,v2] and [v2,v3,v4] with v2=v1+1, v3=v1+n and v4=v3+1; they share the edge v2-v3 and neither repeats a vertex |
| AssetGenerator.QuadFaces | generate_assets.py:117-123 | the two triangles of a quad; `QuadShape` and `QuadWithin` state their shape and range |
| AssetGenerator.QuadWithin | generate_assets.py:117-123 | every index of an inner quad's triangles lies in [0, n*n) |
| AssetGenerator.GridFacesCount | generate_assets.py:113-123 | r quad rows hold 2*r*(n-1) triangles |
| AssetGenerator.RowFacesWithin | generate_assets.py:115-123 | every index of a quad row's triangles lies in [0, n*n) |
| AssetGenerator.GridFacesWithin | generate_assets.py:113-123 | every index of the triangles of the first quad rows lies in [0, n*n) |
| AssetGenerator.TerrainFacesShape | generate_assets.py:113-123 | the terrain has exactly 2*(n-1)^2 triangles, none when n is 0, and every index lies in [0, n*n) |
| AssetGenerator.CreateTerrain | generate_assets.py:106-123 | n*n vertices with grid point (i, j) at index i*n+j; the faces are exactly the reference triangle list, 2*(n-1)^2 of them, every index naming a vertex |
| AssetGenerator.TerrainVertices | generate_assets.py:107-110 | the two vertex loops append exactly the reference row-major vertex list |
| AssetGenerator.TerrainFaceList | generate_assets.py:113-123 | the two face loops append exactly the reference triangle list, two per quad |
| AssetGenerator.PackFilesDistinct | generate_assets.py:297-306 | no two assets of the pack are written to the same file |
| AssetGenerator.GenerateAssetPack | generate_assets.py:290-315 | the manifest lists six distinct files in generation order (cube, sphere, cylinder, terrain, tree, building), in GLB format |

## Left out

- Rendering, the pygame event loop, fonts, the vignette and the tick animation timers
  are left out. They only draw.
- Saving and loading game states as JSON files is left out. `save_game_state` is
  modelled only by its step counter; the file, its name and its contents are not.
- Generating a random level is left out because it uses random numbers and has retry
  loops with no termination bound. The level that replaces the state on reaching the
  exit is a parameter, `nextLevel`, of `HandleInput`, `TryMove` and `CompleteLevel`.
- Entity ids are natural numbers in the model. The source would wrap a negative gear
  id around to the end of the list, and that is not modelled.
- Pygame key codes are reduced to the five keys the engine reads plus one "other key".
  Events other than key presses are one constructor.
- `levelStartTime` is a `real`. Only its starting value 0.0 in the fixed level is used.
  The clock is not modelled.
- Clockwork.ClockworkCrypts.HandleInput: for a successful action, the contract states
  the counters, the tick condition and the tick's invariants. It does not restate every
  field written by the move or by the tick itself; `TryMove` and `TickGears` state those.
- Running `scrot` and `xdotool` is not modelled. Each call, and each sleep, appears as an
  `Effect` in the runner's log. Whether the tool call succeeds is a parameter
  (`delivered`, `captured`). Printing is dropped and leaves no trace in the log.
- A missing `scrot` or `xdotool` program is not modelled. The source catches only a
  failing exit status, so a missing program raises an error that ends the whole run.
  The model has only the caught failure (`delivered` or `captured` false), after which
  the runner carries on.
- Automation.ParseInt: the limit of 4300 digits that recent Python versions place on
  integer conversion is not modelled. Under such a version a longer coordinate is a
  coordinate error, while the model reads it as a number. `ParseIntRoundTrip` and
  `ClickRoundTrip` therefore hold for every integer in the model, but only for integers
  of at most 4300 digits under those versions.
- `wait_for_gui`, the argument loop in `main`, and creating the screenshot directory
  are left out.
- Automation.GameAutomation.SendClickEvent: a click whose pointer move fails records
  the same `SendClick` effect as a full click. Only its reported success differs.
- Automation.Lower: only ASCII letters are lowered. For the key table this agrees with
  full Unicode lower-casing: no key in the table contains a character that some
  non-ASCII letter lowers to.
- The integer conversion accepts only ASCII decimal digits, not other Unicode digits.
- The 3D meshes of generate_assets.py are left out: their export, textures, materials,
  heights and coordinates are floating point, random or library calls. Only the index
  structure of the terrain and the manifest's asset list are modelled. Writing the
  manifest file is left out.
