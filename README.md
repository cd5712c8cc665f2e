# Cube games and calibration values, modelled in Dafny

This project models two small line-by-line puzzle solvers and proves what
they compute.

- **The cube game** (`day-2/src/main.rs`). A record
  `Game <id>: <set>; <set>; ...` names a game and the sets of coloured
  cubes drawn in it. Each set is a comma-separated list of
  `<count> <colour>`. The solver does four things:
  - It parses every record into an id, the ordered list of sets, and per
    colour the largest count seen (the *min set*: the smallest bag that
    could have produced every draw).
  - It checks every set against fixed limits: green 13, red 12, blue 14.
  - It computes a game's *power*, the product of its min set.
  - It folds two totals over the lines: the ids of the valid games, and
    the powers of all games.
- **The calibration values** (`day-1/src/main.rs`). For each line the
  solver joins every match of `[0-9]+` and reads the first and last
  character of the result. It parses those two as a number and adds the
  numbers up.

Modules:

- `Strings` (`strings.dfy`) holds the parts of Rust's `str` and `u32` that
  the solvers use:
  - `split` on one character, as `Split`. `SplitIsUnique` shows that its
    three facts determine it.
  - `split_ascii_whitespace`, as `Words`.
  - `trim`, as `Trim`, with the Unicode White_Space set of
    `char::is_whitespace`.
  - `u32::from_str`, as `ParseU32`: an optional `+`, then one or more
    ASCII digits, and a value of at most 4294967295.
  - The maximal runs of characters that satisfy a predicate (`Runs`). This
    is exactly what `[0-9]+` finds in a line.
- `Folds` (`folds.dfy`) is the `fold(0, |acc, x| acc + f(x))` shared by
  every total, with its concatenation and permutation laws.
- `CubeGame` (`cube_game.dfy`) models the cube game.
  - `CubeSet::try_from` and the part of `Game::try_from` that loops over
    the sets are methods with loops. Each is proved equal to a function:
    `ParseCubeSet`, and `TryMap` plus `MinSet`.
  - The rest of the solver is pure functions.
  - It also holds a printer for records, and proofs that the parser
    inverts it.
- `Calibration` (`calibration.dfy`) models the calibration extractor.

`CubeSet::try_from` is modelled by three methods:

- `CubeSetTryFrom` is the `for` loop over the comma pieces. It inserts
  each piece's colour and count into the map.
- `PieceTryFrom` is the start of the loop body. It pops the colour token
  and then the count token.
- `PopBack` is one `pop_back().unwrap_or("")`.

`Game::try_from` is modelled by three methods:

- `GameTryFrom` parses the header and then calls `CubeSetsTryFrom`.
- `CubeSetsTryFrom` is the `for` loop. It parses each set and then
  calls `RaiseMinSet`.
- `RaiseMinSet` is the rest of the loop body: the three conditional
  inserts into the min set.

Moving a loop or a loop body into its own method does not change the
order of the checks. The id is parsed first, so it is the first error
returned, before any set is looked at. Inside a piece, the colour is
checked before the count is read.

## Model

| member | source | states |
|---|---|---|
| CubeGame.ParseColor | day-2/src/main.rs:37-47 | a token is a colour iff it is exactly `blue`, `red` or `green`; the colour's name is the token; any other token, `""` included, is `InvalidColor` of that same token |
| CubeGame.ParseColorName | day-2/src/main.rs:37-47 | every colour's name parses back to that colour |
| CubeGame.Quantity | day-2/src/main.rs:64-66 | `get_quantity_by_color`: no ensures of its own; it is the map entry, or 0 for an absent colour, and `ParseCubeSetLastWins` and `ParseCubeSetAbsent` give its value in a parsed set |
| CubeGame.CubeSetIsValid | day-2/src/main.rs:56-62 | `CubeSet::is_valid`: a predicate with no ensures; `CubeSetIsValidIff` states what it means |
| CubeGame.CubeSetIsValidIff | day-2/src/main.rs:56-62 | a set is valid iff no colour's count exceeds its limit (the constants of lines 7-9: green 13, red 12, blue 14; an absent colour counts 0) |
| CubeGame.ParsePiece | day-2/src/main.rs:76-90 | a comma piece parses iff its last whitespace token is a colour; then the colour is that token; the count is the value of the token before the colour when that token is a `u32`, and 0 when it is not or when there is no such token, so it always fits in 32 bits; otherwise the error is `InvalidColor` of the last token (`""` when there is none) |
| CubeGame.ParsePieceIgnoresLeadingTokens | day-2/src/main.rs:77-88 | tokens before the last two of a piece never change its result |
| CubeGame.TallyKeys | day-2/src/main.rs:90 | the set's map holds a colour iff some piece names it |
| CubeGame.TallyLastWins | day-2/src/main.rs:90 | when a colour repeats, the count of the last piece that names it wins |
| CubeGame.ParseCubeSet | day-2/src/main.rs:72-94 | `CubeSet::try_from` as a value: no ensures of its own; `ParseCubeSetOk`, `ParseCubeSetFirstError`, `ParseCubeSetLastWins`, `ParseCubeSetAbsent` and `ParseCubeSetRoundTrip` state what it returns, and `CubeSetTryFrom` is proved equal to it |
| CubeGame.ParseCubeSetOk | day-2/src/main.rs:72-94 | a set parses iff every comma piece parses |
| CubeGame.ParseCubeSetFirstError | day-2/src/main.rs:82-83 | a set that fails reports the error of its first bad piece; all earlier pieces parse |
| CubeGame.ParseCubeSetLastWins | day-2/src/main.rs:76-91 | in a parsed set, a colour's quantity is the count of the last piece that names it |
| CubeGame.ParseCubeSetAbsent | day-2/src/main.rs:64-66 | in a parsed set, a colour that no piece names has quantity 0 |
| CubeGame.PopBack | day-2/src/main.rs:81-86 | `pop_back().unwrap_or("")` gives the last token, or `""` when there is none, and leaves the tokens before it; the `k`-th token from the back of what is left is the `k+1`-th of the original |
| CubeGame.PieceTryFrom | day-2/src/main.rs:76-87 | popping the colour token and then the count token of a piece returns exactly `ParsePiece` of the piece, error included |
| CubeGame.CubeSetTryFrom | day-2/src/main.rs:72-94 | the loop that inserts each piece into the map returns exactly `ParseCubeSet` of the text, error cases included |
| CubeGame.TryMapOk | day-2/src/main.rs:164-165 | mapping with `?` succeeds iff every element does; the result then has one value per element, in order |
| CubeGame.TryMapFirstError | day-2/src/main.rs:164-165 | mapping with `?` that fails reports the first failing element's error |
| CubeGame.MaxQuantity | day-2/src/main.rs:164-181 | the largest count bounds every set's count and, when positive, is reached by some set |
| CubeGame.MaxQuantityIsLeast | day-2/src/main.rs:164-181 | no smaller bound covers every set |
| CubeGame.MinSetStep | day-2/src/main.rs:170-180 | adding one set updates the min set by the three conditional inserts, blue, red, green in that order |
| CubeGame.RaiseMinSet | day-2/src/main.rs:166-180 | the three conditional inserts raise the blue, red and green entries, in that order, to the new set's count when it is larger; with `MinSetStep`, the result is the min set of the sets seen so far |
| CubeGame.CubeSetsTryFrom | day-2/src/main.rs:164-183 | the loop returns `TryMap(ParseCubeSet)` of the fragments and, on success, a map equal to `MinSet` of the parsed sets |
| CubeGame.GameTryFrom | day-2/src/main.rs:138-190 | the method returns exactly `ParseGame` of the line: `InvalidId` first, then the first bad set, else the game |
| Strings.Words | day-2/src/main.rs:77-80 | `split_ascii_whitespace`: every token is non-empty and holds no ASCII whitespace; `WordsSplitAt` and `WordsSingle` give the tokens of joined and single-word text |
| Strings.TrimAll | day-2/src/main.rs:141-156 | the steps that map `trim` over the pieces: one result per input, each the trimmed input |
| CubeGame.GameParts | day-2/src/main.rs:141-142 | the `:` parts of a line, each trimmed; there is always at least one |
| CubeGame.Header | day-2/src/main.rs:145-147 | `pop_front().unwrap_or("")` of the `:` parts: no ensures of its own; `HeaderOfLine` states that it is the trimmed text before the first `:` |
| CubeGame.Body | day-2/src/main.rs:151-153 | the second `:` part, or `""`: no ensures of its own; `HeaderOfLine`, `BodyOfLine` and `NoColonEmptyBody` state what it is |
| CubeGame.IdToken | day-2/src/main.rs:145-160 | the last whitespace token of the header, or `""`: no ensures of its own; `HeaderOfLine`, `IdTokenIsLastWord` and `GameLineIdToken` state what it is |
| CubeGame.Fragments | day-2/src/main.rs:151-156 | the body split on `;`, each fragment trimmed: no ensures of its own; `EmptyBodyFails` and `FormatGameFragments` state it for an empty body and for a printed game |
| CubeGame.ParseGame | day-2/src/main.rs:138-190 | `Game::try_from` as a value: no ensures of its own; `ParseGameOk`, `ParseGameError`, `ParseGameMinOfCubes` and `ParseGameRoundTrip` state what it returns, and `GameTryFrom` is proved equal to it |
| CubeGame.MinSetSpec | day-2/src/main.rs:164-181 | a colour is in the min set iff some set shows it with a positive count; its entry bounds every set's count and is reached by one; an absent colour is 0 in every set |
| CubeGame.GameFromPartsOk | day-2/src/main.rs:158-183 | an id token and a list of fragments make a game iff the token is a `u32` and every fragment is a set; the game then holds that id, those sets in order, and their min set |
| CubeGame.GameFromPartsError | day-2/src/main.rs:158-165 | when they do not, the error is `InvalidId` for a bad token, and otherwise that of the first bad fragment |
| CubeGame.ParseGameOk | day-2/src/main.rs:138-190 | a line parses iff its id token is a `u32` and every fragment parses as a set; the game then holds that id, one set per fragment in order, and the min set of those sets |
| CubeGame.ParseGameError | day-2/src/main.rs:158-165 | a failing line reports `InvalidId` when its id token is not a `u32`, and otherwise the error of its first bad fragment |
| CubeGame.ParseGameMinOfCubes | day-2/src/main.rs:130-132 | in a parsed game, `get_min_of_cubes_by_color` finds a colour iff some set shows it; the value found bounds every set's count and is reached by one; a colour not found is 0 in every set |
| CubeGame.HeaderOfLine | day-2/src/main.rs:141-156 | the header is the trimmed text before the first `:`; the id token depends on the header alone |
| CubeGame.BodyOfLine | day-2/src/main.rs:141-156 | the body of `<header>: <body>` is `<body>` when neither part holds a `:` and the body is already trimmed |
| CubeGame.InvalidIdPrecedence | day-2/src/main.rs:158-165 | a header whose id token is not a `u32` gives `InvalidId`, whatever the body holds |
| CubeGame.GameIdRoundTrip | day-2/src/main.rs:145-162 | the id of `Game <n>: ...` is `n`, for every 32-bit `n` |
| CubeGame.NoColonEmptyBody | day-2/src/main.rs:151-156 | a line without `:` has an empty body |
| CubeGame.EmptyBodyFails | day-2/src/main.rs:151-156 | a line with a good id and an empty body fails with `InvalidColor("")` |
| CubeGame.NoColonFails | day-2/src/main.rs:151-156 | a line with a good id and no `:` fails with `InvalidColor("")` |
| CubeGame.MinOfCubesByColor | day-2/src/main.rs:130-132 | `get_min_of_cubes_by_color`, a map lookup: no ensures of its own; `ParseGameMinOfCubes` and `MinOfCubesIsMax` state what it finds in a parsed game |
| CubeGame.GameIsValid | day-2/src/main.rs:105-110 | `Game::is_valid`: a predicate with no ensures; `GameIsValidIff` and `GameIsValidSubset` state what it means |
| CubeGame.Power | day-2/src/main.rs:112-128 | `power_min_set_of_cubes`: no ensures of its own; `PowerSpec` gives its value |
| CubeGame.GameIsValidIff | day-2/src/main.rs:105-110 | a game is valid iff no colour's largest count exceeds its limit |
| CubeGame.GameIsValidSubset | day-2/src/main.rs:105-110 | a game made of some of a valid game's sets is valid |
| CubeGame.MinOfCubesIsMax | day-2/src/main.rs:130-132 | with the min set built by the parser, a colour is found iff its largest count is positive, and the value found is that count |
| CubeGame.PowerSpec | day-2/src/main.rs:112-128 | the power is 0 iff every set shows no cubes; otherwise it is the product over the colours of the largest count, with a colour never seen counting 1 |
| CubeGame.PowerRedOnlyExample | day-2/src/main.rs:112-128 | sets that only show red, 4 at most, give power 4 |
| CubeGame.ValidExample | day-2/src/main.rs:105-110 | the sets {3 blue, 4 red}, {1 red, 2 green, 6 blue}, {2 green} make a valid game |
| CubeGame.PowerExample | day-2/src/main.rs:112-128 | those same sets have power 48 |
| CubeGame.SumParsed | day-2/src/main.rs:194-212 | the shared fold of both totals: no ensures of its own; `SumParsedIsSumOf`, `SumParsedOk`, `SumParsedConcat`, `SumParsedPermutation` and `SumParsedAppend` state what it computes |
| CubeGame.SumValidGames | day-2/src/main.rs:194-204 | `sum_valid_games_from_lines`: no ensures of its own; `SumValidGamesSpec` gives its value |
| CubeGame.SumOfPowers | day-2/src/main.rs:206-212 | `sum_of_power_of_min_set_of_cubes_from_lines`: no ensures of its own; `SumOfPowersSpec` gives its value |
| CubeGame.SumParsedIsSumOf | day-2/src/main.rs:194-212 | the fold that parses and adds each line equals parsing all lines first and then summing; a bad line's error is propagated |
| CubeGame.SumParsedOk | day-2/src/main.rs:196 | a total exists iff every line parses; otherwise the first bad line's error stops the fold |
| CubeGame.SumParsedConcat | day-2/src/main.rs:194-212 | the total over two blocks of lines is the sum of their totals |
| CubeGame.SumParsedPermutation | day-2/src/main.rs:194-212 | reordering the lines leaves the total unchanged |
| CubeGame.SumParsedAppend | day-2/src/main.rs:195-203 | appending a line adds exactly the score of its game |
| CubeGame.SumOfValidIds | day-2/src/main.rs:198-202 | adding the ids of valid games, and 0 for invalid ones, gives the sum of the ids of the valid games |
| CubeGame.SumValidGamesSpec | day-2/src/main.rs:194-204 | when every line parses, the first total is the sum of the ids of exactly the valid games |
| CubeGame.SumOfPowersSpec | day-2/src/main.rs:206-212 | when every line parses, the second total is the sum of every game's power |
| CubeGame.ParsePieceRoundTrip | day-2/src/main.rs:76-90 | a printed `<count> <colour>`, with or without a leading space, parses back to itself |
| CubeGame.ParseCubeSetRoundTrip | day-2/src/main.rs:72-94 | a printed set `<draw>, <draw>, ...` parses back to the counts of its draws, the last draw of a colour winning |
| CubeGame.ParseGameRoundTrip | day-2/src/main.rs:138-190 | a printed `Game <id>: <set>; ...` parses back to its id, its sets in order, and their min set |
| Strings.Split | day-2/src/main.rs:74 | `split` always gives at least one piece; the pieces join back to the text and hold no separator |
| Strings.SplitIsUnique | day-2/src/main.rs:74 | those three facts determine the pieces |
| Strings.SplitAtFirst | day-2/src/main.rs:141-142 | the text before the first separator is the first piece |
| Strings.WordsSplitAt | day-2/src/main.rs:77-80 | ASCII whitespace separates tokens |
| Strings.Trim | day-2/src/main.rs:141-142 | the trimmed text neither starts nor ends with whitespace, and text that does neither is unchanged |
| Strings.TrimIsMiddle | day-2/src/main.rs:141-142 | the trimmed text is the slice of the text that starts after its leading whitespace, and every character outside that slice is whitespace |
| Strings.TrimIdempotent | day-2/src/main.rs:141-142 | trimming twice is trimming once |
| Strings.ParseU32 | day-2/src/main.rs:84-88 | a parsed value fits in 32 bits and comes from a non-empty string of digits, with an optional leading `+`; the value is the decimal value of those digits |
| Strings.ParseU32Digits | day-2/src/main.rs:158-162 | every non-empty digit string whose value fits in 32 bits parses to that value, with or without `+` |
| Strings.DecimalValueLeadingZeros | day-2/src/main.rs:84-88 | leading zeros do not change a decimal value |
| Strings.ParseU32LeadingZeros | day-2/src/main.rs:158-162 | a spelling padded with leading zeros, such as `007` or `+007`, parses to its value |
| Strings.ParseU32RoundTrip | day-2/src/main.rs:158-162 | every 32-bit value parses back from its decimal spelling, with or without `+` |
| Strings.ParseU32Overflow | day-2/src/main.rs:158-162 | the decimal spelling of a value beyond 32 bits does not parse |
| Strings.RunsConcat | day-1/src/main.rs:25-34 | joining the maximal digit runs gives exactly the line's digits, in order |
| Strings.RunsSplitAt | day-1/src/main.rs:25-32 | a non-digit separates runs |
| Folds.SumOfConcat | day-1/src/main.rs:24-43 | a fold's total over a concatenation is the sum of the totals |
| Folds.SumOfPermutation | day-1/src/main.rs:24-43 | a fold's total does not depend on the order of the elements |
| Calibration.DigitRuns | day-1/src/main.rs:25-32 | every match of `[0-9]+` is a non-empty run of digits |
| Calibration.LineNumber | day-1/src/main.rs:25-34 | the joined matches are exactly the line's ASCII digits, in order |
| Calibration.LineNumberEnds | day-1/src/main.rs:34-37 | the joined digits start with the leftmost digit of the line and end with the rightmost |
| Calibration.FirstAndLastDigitExist | day-1/src/main.rs:36-37 | a line with a digit has a leftmost and a rightmost digit |
| Calibration.CalibrationValue | day-1/src/main.rs:25-42 | a line's value is at most 99 and is ten times its leftmost digit plus its rightmost digit |
| Calibration.CalibrationParseNeverFails | day-1/src/main.rs:39-42 | the two characters always parse, so the `unwrap_or(0)` fallback is never taken |
| Calibration.CalibrationDependsOnlyOnDigits | day-1/src/main.rs:23-34 | two lines with the same digits have the same value |
| Calibration.CalibrationIgnoresNonDigit | day-1/src/main.rs:23-34 | inserting a non-digit character anywhere never changes a line's value |
| Calibration.CalibrationSingleDigit | day-1/src/main.rs:36-37 | a line whose only digit is `d` has value `11 * d` |
| Calibration.CalibrationExampleSingle | day-1/src/main.rs:36-37 | `"a7b"` has value 77 |
| Calibration.CalibrationExampleRuns | day-1/src/main.rs:25-37 | `"12x34"` has value 14 |
| Calibration.CalibrationSum | day-1/src/main.rs:22-46 | the total of `n` lines is at most `99 * n` |
| Calibration.CalibrationSumIsSumOf | day-1/src/main.rs:24-43 | the total is the sum of the per-line values |
| Calibration.CalibrationSumConcat | day-1/src/main.rs:24-43 | the total over two blocks of lines is the sum of their totals, so appending a line adds exactly its value |
| Calibration.CalibrationSumPermutation | day-1/src/main.rs:24-43 | reordering the lines leaves the total unchanged |

## Left out

- `main` in both files is left out. It does I/O: it reads `input.txt`,
  prints the totals and prints the read error.
- `impl Display for GameError` is left out. It only formats messages.
- `str::lines()` is left out, together with its treatment of `\r\n`. The
  totals take the input as a sequence of lines that are already split.
- The `regex` crate is not modelled. The matches of `[0-9]+` are the
  maximal runs of ASCII digits (`Strings.Runs`).
- Panics are not modelled as aborts.
  - In the calibration extractor, a line with no digit makes
    `next().unwrap()` panic. `CalibrationValue` and `CalibrationSum`
    require that every line holds a digit.
  - In the cube game, `expect("Invalid game")` stops both totals at the
    first bad line. `SumParsed` returns that line's error instead of a
    total.
- Calibration.CalibrationSum: the model computes the total in unbounded
  integers. It does not model the `u32` overflow of the fold, which
  panics in a debug build and wraps in a release build. Each line adds at
  most 99, so about 43 million lines would be needed to overflow.
- CubeGame.SumParsed: the totals are unbounded integers. It does not
  model the `u32` overflow of `acc + game.id` or `acc + power`.
- CubeGame.Power: the power is an unbounded integer. It does not model
  the `u32` overflow of the product (line 127), which overflows once the
  product passes 4294967295, for example with 1626 cubes of each colour,
  or with 65536 red and 65536 green and no blue.
- CubeGame.CubeSetsTryFrom: `HashMap` is modelled as a Dafny `map`. Its
  iteration order and hashing are left out, because nothing observable
  depends on them.
- CubeGame.GameTryFrom: the header and body split of lines 141-156 is
  straight-line code with no loop. It is modelled by the functions
  `GameParts`, `Header`, `Body`, `IdToken` and `Fragments`, and is not
  modelled statement by statement. `pop_front`, `pop_back` and
  `unwrap_or` become "first element, or `""`" and "last element, or
  `""`".
- `power_min_set_of_cubes` (day-2/src/main.rs:113-115) returns 0 when the
  min set is empty. That includes a game whose sets all show 0 cubes
  (`Game 1: 0 red`), not only a game with no sets. The model does the
  same.
- `Game::try_from` keeps only the first two `:`-separated parts of a
  line. Text after a second `:` is ignored, and the model does the same.
