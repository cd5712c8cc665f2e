/**
 * The cube-game parser, validator and aggregator (day-2/src/main.rs).
 *
 * A record `Game <id>: <set>; <set>; ...` names a game and the cube sets
 * drawn in it; each set is a comma-separated list of `<count> <colour>`.
 * The solver parses every record, keeps per colour the largest count seen
 * (the smallest bag of cubes that could have produced every draw), checks
 * each set against fixed limits and folds two totals over the lines.
 */
module CubeGame {
  import opened Strings
  import opened Folds

  /* ---------------------------------------------------------------------
   * Constants, colours and errors
   * ------------------------------------------------------------------- */

  const MAX_GREEN_CUBES: nat := 13
  const MAX_RED_CUBES: nat := 12
  const MAX_BLUE_CUBES: nat := 14

  datatype GameError = InvalidId | InvalidColor(token: string)

  /** `Result<T, GameError>`; `Err` is what `?` propagates and `expect` panics on. */
  datatype Result<T> = Ok(value: T) | Err(error: GameError)

  datatype CubeColor = Blue | Red | Green

  /** The spelling of each colour in a record. */
  function ColorName(c: CubeColor): string {
    match c
    case Blue => "blue"
    case Red => "red"
    case Green => "green"
  }

  /**
   * `CubeColor::try_from`: exactly the three lower-case names are colours;
   * any other token, the empty one included, is `InvalidColor` of itself.
   */
  function ParseColor(token: string): (r: Result<CubeColor>)
    ensures r.Ok? <==> token == "blue" || token == "red" || token == "green"
    ensures r.Ok? ==> ColorName(r.value) == token
    ensures r.Err? ==> r.error == InvalidColor(token)
  {
    match token
    case "blue" => Ok(Blue)
    case "red" => Ok(Red)
    case "green" => Ok(Green)
    case _ => Err(InvalidColor(token))
  }

  lemma ParseColorName(c: CubeColor)
    ensures ParseColor(ColorName(c)) == Ok(c)
  {
  }

  /* ---------------------------------------------------------------------
   * `?` inside a `for` loop: map over a sequence, stopping at the first error
   * ------------------------------------------------------------------- */

  function TryMap<A, B>(xs: seq<A>, f: A -> Result<B>): (r: Result<seq<B>>)
    decreases |xs|
  {
    if |xs| == 0 then Ok([])
    else
      match TryMap(xs[..|xs| - 1], f)
      case Err(e) => Err(e)
      case Ok(ys) =>
        match f(xs[|xs| - 1])
        case Err(e) => Err(e)
        case Ok(y) => Ok(ys + [y])
  }

  /** TryMap succeeds iff every element does, and then returns every element's value. */
  lemma {:induction false} TryMapOk<A, B>(xs: seq<A>, f: A -> Result<B>)
    ensures TryMap(xs, f).Ok? <==> forall i :: 0 <= i < |xs| ==> f(xs[i]).Ok?
    ensures TryMap(xs, f).Ok? ==>
      |TryMap(xs, f).value| == |xs| &&
      forall i :: 0 <= i < |xs| ==> TryMap(xs, f).value[i] == f(xs[i]).value
    decreases |xs|
  {
    if |xs| > 0 {
      var n := |xs| - 1;
      TryMapOk(xs[..n], f);
      assert forall i :: 0 <= i < n ==> xs[..n][i] == xs[i];
    }
  }

  /** A failing TryMap reports the error of its first failing element. */
  lemma {:induction false} TryMapFirstError<A, B>(xs: seq<A>, f: A -> Result<B>)
    requires TryMap(xs, f).Err?
    ensures exists i :: (0 <= i < |xs| && f(xs[i]) == Err(TryMap(xs, f).error)
                         && forall j :: 0 <= j < i ==> f(xs[j]).Ok?)
    decreases |xs|
  {
    var n := |xs| - 1;
    assert forall i :: 0 <= i < n ==> xs[..n][i] == xs[i];
    if TryMap(xs[..n], f).Err? {
      TryMapFirstError(xs[..n], f);
      var i :| 0 <= i < n && f(xs[..n][i]) == Err(TryMap(xs[..n], f).error) &&
        forall j :: 0 <= j < i ==> f(xs[..n][j]).Ok?;
      assert f(xs[i]) == Err(TryMap(xs, f).error);
    } else {
      TryMapOk(xs[..n], f);
      assert f(xs[n]) == Err(TryMap(xs, f).error);
    }
  }

  /** One more successful element extends the result by its value. */
  lemma TryMapStep<A, B>(xs: seq<A>, i: nat, f: A -> Result<B>, ys: seq<B>, y: B)
    requires i < |xs| && TryMap(xs[..i], f) == Ok(ys) && f(xs[i]) == Ok(y)
    ensures TryMap(xs[..i + 1], f) == Ok(ys + [y])
  {
    assert xs[..i + 1][..i] == xs[..i];
  }

  /** Once a prefix has failed, the rest of the sequence is never looked at. */
  lemma {:induction false} TryMapPrefixError<A, B>(xs: seq<A>, k: nat, f: A -> Result<B>)
    requires k <= |xs| && TryMap(xs[..k], f).Err?
    ensures TryMap(xs, f) == TryMap(xs[..k], f)
    decreases |xs| - k
  {
    if k < |xs| {
      assert xs[..k + 1][..k] == xs[..k];
      TryMapPrefixError(xs, k + 1, f);
    } else {
      assert xs[..k] == xs;
    }
  }

  /* ---------------------------------------------------------------------
   * Cube sets
   * ------------------------------------------------------------------- */

  /** One set of cubes drawn at once: the `HashMap<CubeColor, u32>` of a `CubeSet`. */
  datatype CubeSet = CubeSet(cubes: map<CubeColor, nat>)

  /** `get_quantity_by_color`: the count of a colour, 0 when the set does not mention it. */
  function Quantity(s: CubeSet, c: CubeColor): nat {
    if c in s.cubes then s.cubes[c] else 0
  }

  /** `CubeSet::is_valid`: green at most 13, red at most 12, blue at most 14. */
  predicate CubeSetIsValid(s: CubeSet) {
    Quantity(s, Green) <= MAX_GREEN_CUBES && Quantity(s, Red) <= MAX_RED_CUBES
    && Quantity(s, Blue) <= MAX_BLUE_CUBES
  }

  /** The limit each colour must respect in every set. */
  function Limit(c: CubeColor): nat {
    match c
    case Green => MAX_GREEN_CUBES
    case Red => MAX_RED_CUBES
    case Blue => MAX_BLUE_CUBES
  }

  /** A set is valid exactly when no colour exceeds its limit. */
  lemma CubeSetIsValidIff(s: CubeSet)
    ensures CubeSetIsValid(s) <==> forall c: CubeColor :: Quantity(s, c) <= Limit(c)
  {
    if CubeSetIsValid(s) {
      forall c: CubeColor ensures Quantity(s, c) <= Limit(c) {
        match c
        case Green =>
        case Red =>
        case Blue =>
      }
    } else {
      assert Quantity(s, Green) > Limit(Green) || Quantity(s, Red) > Limit(Red)
        || Quantity(s, Blue) > Limit(Blue);
    }
  }

  /** What one comma piece of a set says: a colour and its count. */
  datatype Draw = Draw(color: CubeColor, count: nat)

  /** The `k`-th token from the back (`pop_back` `k + 1` times), or `""` when there are not that many. */
  function FromBack(tokens: seq<string>, k: nat): string {
    if k < |tokens| then tokens[|tokens| - 1 - k] else ""
  }

  /**
   * One comma piece (the body of the loop at lines 77-90): its last
   * whitespace token is the colour, the token before it the count; a
   * missing or unparsable count reads as 0 and earlier tokens are ignored.
   */
  function ParsePiece(part: string): (r: Result<Draw>)
    ensures r.Ok? <==> ParseColor(FromBack(Words(part), 0)).Ok?
    ensures r.Ok? ==> ColorName(r.value.color) == FromBack(Words(part), 0)
    ensures r.Ok? ==> r.value.count <= U32_MAX
    ensures r.Ok? && |Words(part)| < 2 ==> r.value.count == 0
    ensures r.Ok? && ParseU32(FromBack(Words(part), 1)).Some? ==>
      r.value.count == ParseU32(FromBack(Words(part), 1)).value
    ensures r.Ok? && ParseU32(FromBack(Words(part), 1)).None? ==> r.value.count == 0
    ensures r.Err? ==> r.error == InvalidColor(FromBack(Words(part), 0))
  {
    var tokens := Words(part);
    match ParseColor(FromBack(tokens, 0))
    case Err(e) => Err(e)
    case Ok(color) => Ok(Draw(color, ParseU32(FromBack(tokens, 1)).GetOr(0)))
  }

  /**
   * `VecDeque::pop_back().unwrap_or(String::from(""))` on the tokens of a
   * piece: the last token, or `""` when there is none, and what is left.
   */
  method PopBack(tokens: seq<string>) returns (last: string, rest: seq<string>)
    ensures last == FromBack(tokens, 0)
    ensures |tokens| > 0 ==> rest == tokens[..|tokens| - 1]
    ensures |tokens| == 0 ==> rest == []
    ensures forall k: nat :: FromBack(rest, k) == FromBack(tokens, k + 1)
  {
    if |tokens| == 0 {
      return "", tokens;
    }
    return tokens[|tokens| - 1], tokens[..|tokens| - 1];
  }

  /**
   * The body of the loop of `CubeSet::try_from` (lines 77-89), up to the
   * insert: pop the colour token, then the count token, from the back.
   */
  method PieceTryFrom(part: string) returns (r: Result<Draw>)
    ensures r == ParsePiece(part)
  {
    var cubeParts := Words(part);
    var colorToken;
    colorToken, cubeParts := PopBack(cubeParts);
    var cubeColor := ParseColor(colorToken);
    if cubeColor.Err? {
      ParsePieceOf(part, colorToken, "");
      return Err(cubeColor.error);
    }
    var quantityToken;
    quantityToken, cubeParts := PopBack(cubeParts);
    var cubeQuantity := ParseU32(quantityToken).GetOr(0);
    ParsePieceOf(part, colorToken, quantityToken);
    return Ok(Draw(cubeColor.value, cubeQuantity));
  }

  /** A piece in terms of its last token and the token before it. */
  lemma ParsePieceOf(part: string, colorToken: string, quantityToken: string)
    requires colorToken == FromBack(Words(part), 0)
    requires ParseColor(colorToken).Ok? ==> quantityToken == FromBack(Words(part), 1)
    ensures ParseColor(colorToken).Err? ==> ParsePiece(part) == Err(ParseColor(colorToken).error)
    ensures ParseColor(colorToken).Ok? ==>
      ParsePiece(part) == Ok(Draw(ParseColor(colorToken).value, ParseU32(quantityToken).GetOr(0)))
  {
  }

  /** Tokens before the last two of a piece are ignored. */
  lemma ParsePieceIgnoresLeadingTokens(junk: string, w: char, part: string)
    requires IsAsciiWhitespace(w)
    requires |Words(part)| >= 2
    ensures ParsePiece(junk + [w] + part) == ParsePiece(part)
  {
    WordsSplitAt(junk, w, part);
    var ws := Words(junk) + Words(part);
    assert FromBack(ws, 0) == FromBack(Words(part), 0);
    assert FromBack(ws, 1) == FromBack(Words(part), 1);
  }

  /** The counts a set records: each piece in order overwrites its colour's entry. */
  function Tally(draws: seq<Draw>): map<CubeColor, nat>
    decreases |draws|
  {
    if |draws| == 0 then map[]
    else
      var d := draws[|draws| - 1];
      Tally(draws[..|draws| - 1])[d.color := d.count]
  }

  lemma TallyStep(draws: seq<Draw>, d: Draw)
    ensures Tally(draws + [d]) == Tally(draws)[d.color := d.count]
  {
    assert (draws + [d])[..|draws|] == draws;
  }

  /** `draws[i]` is the last draw naming colour `c`. */
  predicate LastNaming(draws: seq<Draw>, i: int, c: CubeColor) {
    0 <= i < |draws| && draws[i].color == c
    && forall j :: i < j < |draws| ==> draws[j].color != c
  }

  /** A colour is recorded iff some draw names it. */
  lemma {:induction false} TallyKeys(draws: seq<Draw>, c: CubeColor)
    ensures c in Tally(draws) <==> exists i :: 0 <= i < |draws| && draws[i].color == c
    decreases |draws|
  {
    if |draws| > 0 {
      var n := |draws| - 1;
      TallyKeys(draws[..n], c);
      assert forall i :: 0 <= i < n ==> draws[..n][i] == draws[i];
    }
  }

  /** Last occurrence wins: the recorded count is that of the last draw naming the colour. */
  lemma {:induction false} TallyLastWins(draws: seq<Draw>, i: nat, c: CubeColor)
    requires LastNaming(draws, i, c)
    ensures c in Tally(draws) && Tally(draws)[c] == draws[i].count
    decreases |draws|
  {
    var n := |draws| - 1;
    if i < n {
      assert LastNaming(draws[..n], i, c);
      TallyLastWins(draws[..n], i, c);
    }
  }

  /** The comma pieces of a set. */
  function Pieces(value: string): seq<string> {
    Split(value, ',')
  }

  /** `CubeSet::try_from`, as a value: split on `,`, parse every piece, tally the draws. */
  function ParseCubeSet(value: string): Result<CubeSet> {
    match TryMap(Pieces(value), ParsePiece)
    case Err(e) => Err(e)
    case Ok(draws) => Ok(CubeSet(Tally(draws)))
  }

  /** A set parses iff every comma piece names a colour. */
  lemma ParseCubeSetOk(value: string)
    ensures ParseCubeSet(value).Ok? <==>
      forall i :: 0 <= i < |Pieces(value)| ==> ParsePiece(Pieces(value)[i]).Ok?
  {
    TryMapOk(Pieces(value), ParsePiece);
  }

  /** A set that does not parse reports the error of its first bad piece. */
  lemma ParseCubeSetFirstError(value: string)
    requires ParseCubeSet(value).Err?
    ensures exists i :: (0 <= i < |Pieces(value)|
                         && ParsePiece(Pieces(value)[i]) == Err(ParseCubeSet(value).error)
                         && forall j :: 0 <= j < i ==> ParsePiece(Pieces(value)[j]).Ok?)
  {
    TryMapFirstError(Pieces(value), ParsePiece);
  }

  /** `parts[i]` names colour `c` and no later piece does. */
  predicate LastPieceNaming(parts: seq<string>, i: int, c: CubeColor) {
    && 0 <= i < |parts| && ParsePiece(parts[i]).Ok? && ParsePiece(parts[i]).value.color == c
    && forall j :: i < j < |parts| ==> ParsePiece(parts[j]).Ok? && ParsePiece(parts[j]).value.color != c
  }

  /** In a parsed set, the count of a colour is that of the last piece naming it. */
  lemma ParseCubeSetLastWins(value: string, s: CubeSet, i: nat, c: CubeColor)
    requires ParseCubeSet(value) == Ok(s)
    requires LastPieceNaming(Pieces(value), i, c)
    ensures Quantity(s, c) == ParsePiece(Pieces(value)[i]).value.count
  {
    var parts := Pieces(value);
    TryMapOk(parts, ParsePiece);
    var draws := TryMap(parts, ParsePiece).value;
    assert LastNaming(draws, i, c);
    TallyLastWins(draws, i, c);
  }

  /** In a parsed set, a colour no piece names has count 0. */
  lemma ParseCubeSetAbsent(value: string, s: CubeSet, c: CubeColor)
    requires ParseCubeSet(value) == Ok(s)
    requires forall i :: 0 <= i < |Pieces(value)| ==>
      ParsePiece(Pieces(value)[i]).Ok? && ParsePiece(Pieces(value)[i]).value.color != c
    ensures Quantity(s, c) == 0
  {
    PiecesAbsent(Pieces(value), c);
  }

  lemma PiecesAbsent(parts: seq<string>, c: CubeColor)
    requires forall i :: 0 <= i < |parts| ==> ParsePiece(parts[i]).Ok? && ParsePiece(parts[i]).value.color != c
    ensures TryMap(parts, ParsePiece).Ok? && c !in Tally(TryMap(parts, ParsePiece).value)
  {
    TryMapOk(parts, ParsePiece);
    var draws := TryMap(parts, ParsePiece).value;
    assert forall i :: 0 <= i < |draws| ==> draws[i].color != c;
    TallyKeys(draws, c);
  }

  /**
   * `CubeSet::try_from` (lines 72-94): the loop over the comma pieces,
   * inserting each piece's colour and count into the map and returning at
   * the first bad colour.
   */
  method CubeSetTryFrom(value: string) returns (r: Result<CubeSet>)
    ensures r == ParseCubeSet(value)
  {
    var cubes: map<CubeColor, nat> := map[];
    var parts := Pieces(value);
    ghost var draws: seq<Draw> := [];
    var i := 0;
    while i < |parts|
      invariant 0 <= i <= |parts|
      invariant |draws| == i
      invariant TryMap(parts[..i], ParsePiece) == Ok(draws)
      invariant cubes == Tally(draws)
    {
      var draw := PieceTryFrom(parts[i]);
      if draw.Err? {
        assert parts[..i + 1][..i] == parts[..i];
        TryMapPrefixError(parts, i + 1, ParsePiece);
        return Err(draw.error);
      }
      var d := draw.value;
      cubes := cubes[d.color := d.count];
      TryMapStep(parts, i, ParsePiece, draws, d);
      TallyStep(draws, d);
      draws := draws + [d];
      i := i + 1;
    }
    assert parts[..i] == parts;
    return Ok(CubeSet(cubes));
  }

  /* ---------------------------------------------------------------------
   * Games
   * ------------------------------------------------------------------- */

  /** A parsed record: its id, its sets in order, and per colour the largest count seen. */
  datatype Game = Game(id: nat, cubeSets: seq<CubeSet>, minSetCubes: map<CubeColor, nat>)

  /** The largest count of colour `c` over the sets, 0 when there is none. */
  function MaxQuantity(sets: seq<CubeSet>, c: CubeColor): (m: nat)
    ensures forall i :: 0 <= i < |sets| ==> Quantity(sets[i], c) <= m
    ensures m == 0 || exists i :: 0 <= i < |sets| && Quantity(sets[i], c) == m
    decreases |sets|
  {
    if |sets| == 0 then 0
    else
      var n := |sets| - 1;
      var m := MaxQuantity(sets[..n], c);
      assert forall i :: 0 <= i < n ==> sets[..n][i] == sets[i];
      if Quantity(sets[n], c) > m then Quantity(sets[n], c) else m
  }

  /** No smaller count would do: any bound that covers every set covers the maximum. */
  lemma MaxQuantityIsLeast(sets: seq<CubeSet>, c: CubeColor, bound: nat)
    requires forall i :: 0 <= i < |sets| ==> Quantity(sets[i], c) <= bound
    ensures MaxQuantity(sets, c) <= bound
  {
  }

  const AllColors: set<CubeColor> := {Blue, Red, Green}

  lemma AllColorsComplete(c: CubeColor)
    ensures c in AllColors
  {
    match c
    case Blue =>
    case Red =>
    case Green =>
  }

  /** The minimal bag: every colour with a positive maximum, mapped to that maximum. */
  function MinSet(sets: seq<CubeSet>): map<CubeColor, nat> {
    map c: CubeColor | c in AllColors && MaxQuantity(sets, c) > 0 :: MaxQuantity(sets, c)
  }

  /** `unwrap_or(&0)` on a map lookup. */
  function CountOrZero(m: map<CubeColor, nat>, c: CubeColor): nat {
    if c in m then m[c] else 0
  }

  /** `m` holds, for each colour, the maximum over `sets` when it is positive, and nothing otherwise. */
  predicate TracksMaxima(m: map<CubeColor, nat>, sets: seq<CubeSet>) {
    forall c: CubeColor :: CountOrZero(m, c) == MaxQuantity(sets, c) && (c in m ==> m[c] > 0)
  }

  lemma MaxQuantityStep(sets: seq<CubeSet>, s: CubeSet, c: CubeColor)
    ensures MaxQuantity(sets + [s], c) ==
      if Quantity(s, c) > MaxQuantity(sets, c) then Quantity(s, c) else MaxQuantity(sets, c)
  {
    assert (sets + [s])[..|sets|] == sets;
  }

  /** The conditional insert of lines 170-180: raise `c`'s entry to `q` when `q` is larger. */
  function Raise(m: map<CubeColor, nat>, c: CubeColor, q: nat): map<CubeColor, nat> {
    if q > CountOrZero(m, c) then m[c := q] else m
  }

  /** Raising all three entries with the counts of a new set keeps the maxima up to date. */
  lemma TracksMaximaStep(m: map<CubeColor, nat>, sets: seq<CubeSet>, s: CubeSet)
    requires TracksMaxima(m, sets)
    ensures TracksMaxima(
      Raise(Raise(Raise(m, Blue, Quantity(s, Blue)), Red, Quantity(s, Red)), Green, Quantity(s, Green)),
      sets + [s])
  {
    var m' := Raise(Raise(Raise(m, Blue, Quantity(s, Blue)), Red, Quantity(s, Red)), Green, Quantity(s, Green));
    forall c: CubeColor
      ensures CountOrZero(m', c) == MaxQuantity(sets + [s], c) && (c in m' ==> m'[c] > 0)
    {
      MaxQuantityStep(sets, s, c);
      match c
      case Blue =>
      case Red =>
      case Green =>
    }
  }

  lemma TracksMaximaIsMinSet(m: map<CubeColor, nat>, sets: seq<CubeSet>)
    requires TracksMaxima(m, sets)
    ensures m == MinSet(sets)
  {
    forall c: CubeColor ensures c in m <==> c in MinSet(sets) {
      assert CountOrZero(m, c) == MaxQuantity(sets, c);
      AllColorsComplete(c);
    }
  }

  lemma MinSetTracksMaxima(sets: seq<CubeSet>)
    ensures TracksMaxima(MinSet(sets), sets)
  {
    forall c: CubeColor
      ensures CountOrZero(MinSet(sets), c) == MaxQuantity(sets, c)
    {
      AllColorsComplete(c);
    }
  }

  /** One more set: the min set is the old one with each colour raised to the new set's count. */
  lemma MinSetStep(sets: seq<CubeSet>, s: CubeSet)
    ensures MinSet(sets + [s]) ==
      Raise(Raise(Raise(MinSet(sets), Blue, Quantity(s, Blue)), Red, Quantity(s, Red)), Green, Quantity(s, Green))
  {
    MinSetTracksMaxima(sets);
    TracksMaximaStep(MinSet(sets), sets, s);
    TracksMaximaIsMinSet(
      Raise(Raise(Raise(MinSet(sets), Blue, Quantity(s, Blue)), Red, Quantity(s, Red)), Green, Quantity(s, Green)),
      sets + [s]);
  }

  /** `get_min_of_cubes_by_color`. */
  function MinOfCubesByColor(g: Game, c: CubeColor): Option<nat> {
    if c in g.minSetCubes then Some(g.minSetCubes[c]) else None
  }

  /** `Game::is_valid`: every set is valid. */
  predicate GameIsValid(g: Game) {
    forall i :: 0 <= i < |g.cubeSets| ==> CubeSetIsValid(g.cubeSets[i])
  }

  /** `power_min_set_of_cubes`: 0 for an empty min set, else the product with 1 for a missing colour. */
  function Power(g: Game): nat {
    if |g.minSetCubes| == 0 then 0
    else
      MinOfCubesByColor(g, Green).GetOr(1) * MinOfCubesByColor(g, Red).GetOr(1)
      * MinOfCubesByColor(g, Blue).GetOr(1)
  }

  /** The text before the first `:` and the text between it and the second one, both trimmed. */
  function GameParts(line: string): (parts: seq<string>)
    ensures |parts| > 0
  {
    TrimAll(Split(line, ':'))
  }

  function Header(line: string): string {
    GameParts(line)[0]
  }

  function Body(line: string): string {
    var parts := GameParts(line);
    if |parts| > 1 then parts[1] else ""
  }

  /** The last whitespace token of the header, trimmed, or `""`. */
  function IdToken(line: string): string {
    var gameParts := TrimAll(Words(Header(line)));
    if |gameParts| > 0 then gameParts[|gameParts| - 1] else ""
  }

  /** The body split on `;`, each fragment trimmed. */
  function Fragments(line: string): seq<string> {
    TrimAll(Split(Body(line), ';'))
  }

  /**
   * The game described by a record's id token and its `;` fragments: the
   * id first (`InvalidId` when the token is not a `u32`), then every
   * fragment as a cube set, then the min set.
   */
  function GameFromParts(idToken: string, fragments: seq<string>): Result<Game> {
    match ParseU32(idToken)
    case None => Err(InvalidId)
    case Some(id) =>
      match TryMap(fragments, ParseCubeSet)
      case Err(e) => Err(e)
      case Ok(sets) => Ok(Game(id, sets, MinSet(sets)))
  }

  /** `Game::try_from`, as a value. */
  function ParseGame(line: string): Result<Game> {
    GameFromParts(IdToken(line), Fragments(line))
  }

  /**
   * The `for` loop of `Game::try_from` (lines 163-181): parse each fragment
   * as a cube set, stopping at the first error (`?`), and raise the running
   * per-colour maximum in place, in the order blue, red, green.
   */
  method CubeSetsTryFrom(cubeSetsParts: seq<string>) returns (r: Result<seq<CubeSet>>, minSetCubes: map<CubeColor, nat>)
    ensures r == TryMap(cubeSetsParts, ParseCubeSet)
    ensures r.Ok? ==> minSetCubes == MinSet(r.value)
  {
    minSetCubes := map[];
    var cubeSets: seq<CubeSet> := [];
    var i := 0;
    assert cubeSetsParts[..0] == [];
    while i < |cubeSetsParts|
      invariant 0 <= i <= |cubeSetsParts|
      invariant TryMap(cubeSetsParts[..i], ParseCubeSet) == Ok(cubeSets)
      invariant minSetCubes == MinSet(cubeSets)
    {
      var cubeSet := CubeSetTryFrom(cubeSetsParts[i]);
      if cubeSet.Err? {
        assert cubeSetsParts[..i + 1][..i] == cubeSetsParts[..i];
        TryMapPrefixError(cubeSetsParts, i + 1, ParseCubeSet);
        return Err(cubeSet.error), minSetCubes;
      }
      var cs := cubeSet.value;
      minSetCubes := RaiseMinSet(minSetCubes, cs);
      MinSetStep(cubeSets, cs);
      TryMapStep(cubeSetsParts, i, ParseCubeSet, cubeSets, cs);
      cubeSets := cubeSets + [cs];
      i := i + 1;
    }
    assert cubeSetsParts[..i] == cubeSetsParts;
    return Ok(cubeSets), minSetCubes;
  }

  /**
   * The body of the loop of `Game::try_from` after the parse (lines
   * 166-180): raise the blue, red and green entries of the min set, in
   * that order, to those of the new set when they are larger.
   */
  method RaiseMinSet(minSetCubes: map<CubeColor, nat>, cubeSet: CubeSet) returns (m: map<CubeColor, nat>)
    ensures m == Raise(Raise(Raise(minSetCubes, Blue, Quantity(cubeSet, Blue)), Red, Quantity(cubeSet, Red)),
                       Green, Quantity(cubeSet, Green))
  {
    var greenQuantity := Quantity(cubeSet, Green);
    var blueQuantity := Quantity(cubeSet, Blue);
    var redQuantity := Quantity(cubeSet, Red);
    m := minSetCubes;
    if blueQuantity > CountOrZero(m, Blue) {
      m := m[Blue := blueQuantity];
    }
    if redQuantity > CountOrZero(m, Red) {
      m := m[Red := redQuantity];
    }
    if greenQuantity > CountOrZero(m, Green) {
      m := m[Green := greenQuantity];
    }
  }

  /**
   * `Game::try_from` (lines 138-190): split the header and body (the
   * straight-line code of lines 141-156, as the functions above), parse
   * the id, then run the loop over the fragments.
   */
  method GameTryFrom(value: string) returns (r: Result<Game>)
    ensures r == ParseGame(value)
  {
    var cubeSetsParts := Fragments(value);
    var gameId := ParseU32(IdToken(value));
    if gameId.None? {
      return Err(InvalidId);
    }
    var cubeSets, minSetCubes := CubeSetsTryFrom(cubeSetsParts);
    if cubeSets.Err? {
      return Err(cubeSets.error);
    }
    return Ok(Game(gameId.value, cubeSets.value, minSetCubes));
  }

  /* ---------------------------------------------------------------------
   * What a parsed game holds
   * ------------------------------------------------------------------- */

  /**
   * The minimal bag, colour by colour: a colour is present iff some set
   * shows it with a positive count; then its entry is the largest count,
   * reached by some set; when it is absent every set shows 0 of it.
   */
  lemma MinSetSpec(sets: seq<CubeSet>, c: CubeColor)
    ensures c in MinSet(sets) <==> exists i :: 0 <= i < |sets| && Quantity(sets[i], c) > 0
    ensures c in MinSet(sets) ==>
      (forall i :: 0 <= i < |sets| ==> Quantity(sets[i], c) <= MinSet(sets)[c])
      && exists i :: 0 <= i < |sets| && Quantity(sets[i], c) == MinSet(sets)[c]
    ensures c !in MinSet(sets) ==> forall i :: 0 <= i < |sets| ==> Quantity(sets[i], c) == 0
  {
    AllColorsComplete(c);
  }

  lemma GameFromPartsOk(idToken: string, fragments: seq<string>)
    ensures GameFromParts(idToken, fragments).Ok? <==>
      ParseU32(idToken).Some? && forall i :: 0 <= i < |fragments| ==> ParseCubeSet(fragments[i]).Ok?
    ensures GameFromParts(idToken, fragments).Ok? ==>
      var g := GameFromParts(idToken, fragments).value;
      && Some(g.id) == ParseU32(idToken)
      && |g.cubeSets| == |fragments|
      && (forall i :: 0 <= i < |g.cubeSets| ==> Ok(g.cubeSets[i]) == ParseCubeSet(fragments[i]))
      && g.minSetCubes == MinSet(g.cubeSets)
  {
    TryMapOk(fragments, ParseCubeSet);
  }

  lemma GameFromPartsError(idToken: string, fragments: seq<string>)
    requires GameFromParts(idToken, fragments).Err?
    ensures ParseU32(idToken).None? ==> GameFromParts(idToken, fragments).error == InvalidId
    ensures ParseU32(idToken).Some? ==>
      exists i :: (0 <= i < |fragments|
                   && ParseCubeSet(fragments[i]) == Err(GameFromParts(idToken, fragments).error)
                   && forall j :: 0 <= j < i ==> ParseCubeSet(fragments[j]).Ok?)
  {
    if ParseU32(idToken).Some? {
      TryMapFirstError(fragments, ParseCubeSet);
    }
  }

  /**
   * A line parses to a game iff its id token is a `u32` and every fragment
   * parses as a set; the game then holds that id, one set per fragment in
   * order, and the minimal bag of those sets.
   */
  lemma ParseGameOk(line: string)
    ensures ParseGame(line).Ok? <==>
      ParseU32(IdToken(line)).Some?
      && forall i :: 0 <= i < |Fragments(line)| ==> ParseCubeSet(Fragments(line)[i]).Ok?
    ensures ParseGame(line).Ok? ==>
      var g := ParseGame(line).value;
      && Some(g.id) == ParseU32(IdToken(line))
      && |g.cubeSets| == |Fragments(line)|
      && (forall i :: 0 <= i < |g.cubeSets| ==> Ok(g.cubeSets[i]) == ParseCubeSet(Fragments(line)[i]))
      && g.minSetCubes == MinSet(g.cubeSets)
  {
    GameFromPartsOk(IdToken(line), Fragments(line));
  }

  /**
   * A line that does not parse reports `InvalidId` when its id token is
   * not a `u32`, and otherwise the error of its first bad fragment.
   */
  lemma ParseGameError(line: string)
    requires ParseGame(line).Err?
    ensures ParseU32(IdToken(line)).None? ==> ParseGame(line).error == InvalidId
    ensures ParseU32(IdToken(line)).Some? ==>
      exists i :: (0 <= i < |Fragments(line)|
                   && ParseCubeSet(Fragments(line)[i]) == Err(ParseGame(line).error)
                   && forall j :: 0 <= j < i ==> ParseCubeSet(Fragments(line)[j]).Ok?)
  {
    GameFromPartsError(IdToken(line), Fragments(line));
  }

  /**
   * In a parsed game, `get_min_of_cubes_by_color` finds a colour iff some
   * set shows it; what it finds bounds every set's count of that colour
   * and is reached by one of them; a colour it does not find is 0 in every set.
   */
  lemma ParseGameMinOfCubes(line: string, g: Game, c: CubeColor)
    requires ParseGame(line) == Ok(g)
    ensures MinOfCubesByColor(g, c).Some? <==>
      exists i :: 0 <= i < |g.cubeSets| && Quantity(g.cubeSets[i], c) > 0
    ensures MinOfCubesByColor(g, c).Some? ==>
      (forall i :: 0 <= i < |g.cubeSets| ==> Quantity(g.cubeSets[i], c) <= MinOfCubesByColor(g, c).value)
      && exists i :: 0 <= i < |g.cubeSets| && Quantity(g.cubeSets[i], c) == MinOfCubesByColor(g, c).value
    ensures MinOfCubesByColor(g, c).None? ==>
      forall i :: 0 <= i < |g.cubeSets| ==> Quantity(g.cubeSets[i], c) == 0
  {
    ParseGameOk(line);
    MinSetSpec(g.cubeSets, c);
  }

  /** The header is everything before the first `:`; what follows cannot change the id token. */
  lemma HeaderOfLine(h: string, b: string)
    requires ':' !in h
    ensures Header(h + [':'] + b) == Trim(h)
    ensures IdToken(h + [':'] + b) == IdToken(h)
    ensures Body(h + [':'] + b) == Trim(Split(b, ':')[0])
  {
    SplitAtFirst(h, ':', b);
    SplitNoSeparator(h, ':');
  }

  /**
   * The id is checked before any set is parsed: a header whose id token is
   * not a `u32` gives `InvalidId` whatever the body holds, even a bad colour.
   */
  lemma InvalidIdPrecedence(h: string, b: string)
    requires ':' !in h
    requires ParseU32(IdToken(h)).None?
    ensures ParseGame(h + [':'] + b) == Err(InvalidId)
  {
    HeaderOfLine(h, b);
  }

  /** A string of digits holds no whitespace of either kind and no separator. */
  lemma DigitsAreWordChars(d: string)
    requires AllSatisfy(d, IsAsciiDigit)
    ensures AllSatisfy(d, IsWordChar)
    ensures forall i :: 0 <= i < |d| ==> !IsWhitespace(d[i]) && d[i] != ':' && d[i] != ';' && d[i] != ','
  {
  }

  /** `Game <digits>` tokenises as the keyword and the digits. */
  lemma GameHeaderWords(d: string)
    requires |d| > 0 && AllSatisfy(d, IsAsciiDigit)
    ensures Words("Game " + d) == ["Game", d]
  {
    DigitsAreWordChars(d);
    assert "Game " + d == "Game" + [' '] + d;
    WordsSplitAt("Game", ' ', d);
    assert AllSatisfy("Game", IsWordChar);
    WordsSingle("Game");
    WordsSingle(d);
  }

  /** The id token is the header's last token, when trimming leaves that token alone. */
  lemma IdTokenIsLastWord(line: string, ws: seq<string>)
    requires Words(Header(line)) == ws && |ws| > 0
    requires Trim(ws[|ws| - 1]) == ws[|ws| - 1]
    ensures IdToken(line) == ws[|ws| - 1]
  {
    var gameParts := TrimAll(ws);
    assert |gameParts| == |ws|;
    assert gameParts[|ws| - 1] == Trim(ws[|ws| - 1]);
  }

  /** The header of `Game <digits>: ...` is `Game <digits>`. */
  lemma GameLineHeader(d: string, b: string)
    requires |d| > 0 && AllSatisfy(d, IsAsciiDigit)
    ensures Header("Game " + d + [':'] + b) == "Game " + d
  {
    var h := "Game " + d;
    DigitsAreWordChars(d);
    assert ':' !in h;
    assert h[0] == 'G' && h[|h| - 1] == d[|d| - 1];
    assert !IsWhitespace(h[0]) && !IsWhitespace(h[|h| - 1]);
    assert Trim(h) == h;
    HeaderOfLine(h, b);
  }

  /** The id token of `Game <digits>: ...` is the digits. */
  lemma GameLineIdToken(d: string, b: string)
    requires |d| > 0 && AllSatisfy(d, IsAsciiDigit)
    ensures IdToken("Game " + d + [':'] + b) == d
  {
    GameLineHeader(d, b);
    GameHeaderWords(d);
    DigitsAreWordChars(d);
    IdTokenIsLastWord("Game " + d + [':'] + b, ["Game", d]);
  }

  /** The id of `Game <n>: ...` is `n`, for every 32-bit `n`. */
  lemma GameIdRoundTrip(id: nat, b: string)
    requires id <= U32_MAX
    ensures ParseU32(IdToken("Game " + ToDecimal(id) + [':'] + b)) == Some(id)
  {
    GameLineIdToken(ToDecimal(id), b);
    ParseU32RoundTrip(id);
  }

  /** A line without `:` has an empty body. */
  lemma NoColonEmptyBody(line: string)
    requires ':' !in line
    ensures Body(line) == ""
  {
    SplitNoSeparator(line, ':');
  }

  /**
   * An empty body still splits into one empty fragment, whose one empty
   * piece has no colour token: a line with a good id and an empty body
   * fails with `InvalidColor("")`.
   */
  lemma EmptyBodyFails(line: string)
    requires Body(line) == ""
    requires ParseU32(IdToken(line)).Some?
    ensures ParseGame(line) == Err(InvalidColor(""))
  {
    SplitNoSeparator("", ';');
    assert Fragments(line) == [""];
    EmptyFragmentGame(IdToken(line));
  }

  lemma EmptyFragmentGame(idToken: string)
    requires ParseU32(idToken).Some?
    ensures GameFromParts(idToken, [""]) == Err(InvalidColor(""))
  {
    EmptyFragmentFails();
    assert TryMap([""], ParseCubeSet) == Err(InvalidColor(""));
  }

  /** The empty fragment has one empty piece, which names no colour. */
  lemma EmptyFragmentFails()
    ensures ParseCubeSet("") == Err(InvalidColor(""))
  {
    assert Pieces("") == [""];
    assert Words("") == [];
    assert ParsePiece("") == Err(InvalidColor(""));
    assert TryMap([""], ParsePiece) == Err(InvalidColor(""));
  }

  /** A line with a good id but no `:` fails with `InvalidColor("")`. */
  lemma NoColonFails(line: string)
    requires ':' !in line
    requires ParseU32(IdToken(line)).Some?
    ensures ParseGame(line) == Err(InvalidColor(""))
  {
    NoColonEmptyBody(line);
    EmptyBodyFails(line);
  }

  /* ---------------------------------------------------------------------
   * Validity and power
   * ------------------------------------------------------------------- */

  /** A game is valid iff no colour's largest count exceeds its limit. */
  lemma GameIsValidIff(g: Game)
    ensures GameIsValid(g) <==> forall c: CubeColor :: MaxQuantity(g.cubeSets, c) <= Limit(c)
  {
    if GameIsValid(g) {
      forall c: CubeColor ensures MaxQuantity(g.cubeSets, c) <= Limit(c) {
        forall i | 0 <= i < |g.cubeSets| ensures Quantity(g.cubeSets[i], c) <= Limit(c) {
          CubeSetIsValidIff(g.cubeSets[i]);
        }
        MaxQuantityIsLeast(g.cubeSets, c, Limit(c));
      }
    } else {
      var i :| 0 <= i < |g.cubeSets| && !CubeSetIsValid(g.cubeSets[i]);
      CubeSetIsValidIff(g.cubeSets[i]);
      var c: CubeColor :| Quantity(g.cubeSets[i], c) > Limit(c);
      assert MaxQuantity(g.cubeSets, c) > Limit(c);
    }
  }

  /** Dropping sets keeps a valid game valid: a game made of some of its sets is valid too. */
  lemma GameIsValidSubset(g: Game, h: Game)
    requires GameIsValid(g)
    requires forall i :: 0 <= i < |h.cubeSets| ==> h.cubeSets[i] in g.cubeSets
    ensures GameIsValid(h)
  {
    forall i | 0 <= i < |h.cubeSets| ensures CubeSetIsValid(h.cubeSets[i]) {
      var j :| 0 <= j < |g.cubeSets| && g.cubeSets[j] == h.cubeSets[i];
    }
  }

  /** In a game whose min set is its minimal bag, a colour is found iff its largest count is positive, and is that count. */
  lemma MinOfCubesIsMax(g: Game, c: CubeColor)
    requires g.minSetCubes == MinSet(g.cubeSets)
    ensures MinOfCubesByColor(g, c).Some? <==> MaxQuantity(g.cubeSets, c) > 0
    ensures MinOfCubesByColor(g, c).GetOr(0) == MaxQuantity(g.cubeSets, c)
    ensures MinOfCubesByColor(g, c).GetOr(1) == AtLeastOne(MaxQuantity(g.cubeSets, c))
  {
    AllColorsComplete(c);
  }

  lemma ProductPositive(a: nat, b: nat, c: nat)
    requires a > 0 && b > 0 && c > 0
    ensures a * b * c > 0
  {
    assert a * b >= b;
    assert a * b * c >= c;
  }

  /** A count of at least one: what `unwrap_or(&1)` makes of an absent colour. */
  function AtLeastOne(n: nat): nat {
    if n == 0 then 1 else n
  }

  /**
   * The power of a game whose min set is its minimal bag: 0 iff every set
   * shows no cubes at all, and otherwise the product over the colours of
   * the largest count, a colour never seen counting as 1.
   */
  lemma PowerSpec(g: Game)
    requires g.minSetCubes == MinSet(g.cubeSets)
    ensures Power(g) == 0 <==> forall c: CubeColor :: MaxQuantity(g.cubeSets, c) == 0
    ensures Power(g) > 0 ==>
      Power(g) == AtLeastOne(MaxQuantity(g.cubeSets, Green)) * AtLeastOne(MaxQuantity(g.cubeSets, Red))
                  * AtLeastOne(MaxQuantity(g.cubeSets, Blue))
  {
    var sets := g.cubeSets;
    var m := g.minSetCubes;
    var green, red, blue := MaxQuantity(sets, Green), MaxQuantity(sets, Red), MaxQuantity(sets, Blue);
    MinOfCubesIsMax(g, Green);
    MinOfCubesIsMax(g, Red);
    MinOfCubesIsMax(g, Blue);
    if green == 0 && red == 0 && blue == 0 {
      forall c: CubeColor ensures c !in m && MaxQuantity(sets, c) == 0 {
        MinOfCubesIsMax(g, c);
        match c
        case Green =>
        case Red =>
        case Blue =>
      }
      assert m.Keys == {};
    } else {
      var c := if green != 0 then Green else if red != 0 then Red else Blue;
      assert c in m.Keys;
      assert |m| > 0;
      ProductPositive(AtLeastOne(green), AtLeastOne(red), AtLeastOne(blue));
    }
  }

  /** Sets that only ever show red, 4 at most. */
  const RedOnlySets: seq<CubeSet> := [CubeSet(map[Red := 4]), CubeSet(map[Red := 1])]

  /** Sets that only ever show red, 4 at most, give power 4. */
  lemma PowerRedOnlyExample()
    ensures Power(Game(1, RedOnlySets, MinSet(RedOnlySets))) == 4
  {
    var sets := RedOnlySets;
    assert Quantity(sets[0], Red) == 4 && Quantity(sets[1], Red) == 1;
    assert Quantity(sets[0], Green) == 0 && Quantity(sets[1], Green) == 0;
    assert Quantity(sets[0], Blue) == 0 && Quantity(sets[1], Blue) == 0;
    assert MaxQuantity(sets, Red) == 4;
    assert MaxQuantity(sets, Green) == 0;
    assert MaxQuantity(sets, Blue) == 0;
    PowerSpec(Game(1, sets, MinSet(sets)));
  }

  /** The sets of the record `Game 1: 3 blue, 4 red; 1 red, 2 green, 6 blue; 2 green`. */
  const ExampleSets: seq<CubeSet> :=
    [CubeSet(map[Blue := 3, Red := 4]), CubeSet(map[Red := 1, Green := 2, Blue := 6]), CubeSet(map[Green := 2])]

  lemma ExampleMaxima()
    ensures MaxQuantity(ExampleSets, Red) == 4
    ensures MaxQuantity(ExampleSets, Green) == 2
    ensures MaxQuantity(ExampleSets, Blue) == 6
  {
    var sets := ExampleSets;
    var a, b, c := sets[0], sets[1], sets[2];
    assert sets == [a, b, c];
    assert Quantity(a, Red) == 4 && Quantity(b, Red) == 1 && Quantity(c, Red) == 0;
    assert Quantity(a, Green) == 0 && Quantity(b, Green) == 2 && Quantity(c, Green) == 2;
    assert Quantity(a, Blue) == 3 && Quantity(b, Blue) == 6 && Quantity(c, Blue) == 0;
    MaxQuantityOfThree(a, b, c, Red, 4);
    MaxQuantityOfThree(a, b, c, Green, 2);
    MaxQuantityOfThree(a, b, c, Blue, 6);
  }

  /** The maximum over three sets is the one quantity that bounds the others. */
  lemma MaxQuantityOfThree(a: CubeSet, b: CubeSet, c: CubeSet, color: CubeColor, m: nat)
    requires Quantity(a, color) <= m && Quantity(b, color) <= m && Quantity(c, color) <= m
    requires Quantity(a, color) == m || Quantity(b, color) == m || Quantity(c, color) == m
    ensures MaxQuantity([a, b, c], color) == m
  {
    var sets := [a, b, c];
    assert sets[0] == a && sets[1] == b && sets[2] == c;
  }

  /** The sets of `Game 1: 3 blue, 4 red; 1 red, 2 green, 6 blue; 2 green` make a valid game: no colour passes its limit. */
  lemma ValidExample()
    ensures GameIsValid(Game(1, ExampleSets, MinSet(ExampleSets)))
  {
    ExampleMaxima();
    var g := Game(1, ExampleSets, MinSet(ExampleSets));
    forall c: CubeColor ensures MaxQuantity(g.cubeSets, c) <= Limit(c) {
      match c
      case Red =>
      case Green =>
      case Blue =>
    }
    GameIsValidIff(g);
  }

  /** The sets of `Game 1: 3 blue, 4 red; 1 red, 2 green, 6 blue; 2 green` have power 4 * 2 * 6 = 48. */
  lemma PowerExample()
    ensures Power(Game(1, ExampleSets, MinSet(ExampleSets))) == 48
  {
    var sets := ExampleSets;
    ExampleMaxima();
    var g := Game(1, sets, MinSet(sets));
    PowerSpec(g);
    assert Power(g) != 0;
    assert AtLeastOne(MaxQuantity(sets, Green)) == 2;
    assert AtLeastOne(MaxQuantity(sets, Red)) == 4;
    assert AtLeastOne(MaxQuantity(sets, Blue)) == 6;
    assert Power(g) == 2 * 4 * 6;
  }

  /* ---------------------------------------------------------------------
   * Totals over the lines
   * ------------------------------------------------------------------- */

  /**
   * `lines.fold(0, |acc, line| acc + f(T::try_from(line).expect(..)))`:
   * the lines are parsed in order and `f` of each value is added; the
   * first line that does not parse stops the fold (the source panics
   * there), reported here as that line's error.
   */
  function SumParsed<T>(lines: seq<string>, parse: string -> Result<T>, f: T -> nat): Result<nat>
    decreases |lines|
  {
    if |lines| == 0 then Ok(0)
    else
      match SumParsed(lines[..|lines| - 1], parse, f)
      case Err(e) => Err(e)
      case Ok(acc) =>
        match parse(lines[|lines| - 1])
        case Err(e) => Err(e)
        case Ok(x) => Ok(acc + f(x))
  }

  /** Reference definition: parse every line first, then add up `f` over the values. */
  lemma {:induction false} SumParsedIsSumOf<T>(lines: seq<string>, parse: string -> Result<T>, f: T -> nat)
    ensures SumParsed(lines, parse, f) ==
      match TryMap(lines, parse)
      case Err(e) => Err(e)
      case Ok(xs) => Ok(SumOf(xs, f))
    decreases |lines|
  {
    if |lines| > 0 {
      var n := |lines| - 1;
      SumParsedIsSumOf(lines[..n], parse, f);
      match TryMap(lines[..n], parse)
      case Err(e) =>
      case Ok(xs) =>
        match parse(lines[n])
        case Err(e) =>
        case Ok(x) =>
          assert (xs + [x])[..|xs|] == xs;
    }
  }

  /**
   * A total is produced iff every line parses; otherwise the error is that
   * of the first line that does not.
   */
  lemma SumParsedOk<T>(lines: seq<string>, parse: string -> Result<T>, f: T -> nat)
    ensures SumParsed(lines, parse, f).Ok? <==> forall i :: 0 <= i < |lines| ==> parse(lines[i]).Ok?
    ensures SumParsed(lines, parse, f).Err? ==>
      exists i :: (0 <= i < |lines| && parse(lines[i]) == Err(SumParsed(lines, parse, f).error)
                   && forall j :: 0 <= j < i ==> parse(lines[j]).Ok?)
  {
    SumParsedIsSumOf(lines, parse, f);
    TryMapOk(lines, parse);
    if TryMap(lines, parse).Err? {
      TryMapFirstError(lines, parse);
    }
  }

  /** What one line adds to a total: `f` of its value, or 0 for a line that does not parse. */
  function LineScore<T>(parse: string -> Result<T>, f: T -> nat, line: string): nat {
    match parse(line)
    case Ok(x) => f(x)
    case Err(_) => 0
  }

  /** When every line parses, the total is the sum of the lines' scores. */
  lemma {:induction false} SumParsedByLine<T>(lines: seq<string>, parse: string -> Result<T>, f: T -> nat)
    requires forall i :: 0 <= i < |lines| ==> parse(lines[i]).Ok?
    ensures SumParsed(lines, parse, f) == Ok(SumOf(lines, line => LineScore(parse, f, line)))
    decreases |lines|
  {
    if |lines| > 0 {
      var n := |lines| - 1;
      assert forall i :: 0 <= i < n ==> lines[..n][i] == lines[i];
      SumParsedByLine(lines[..n], parse, f);
    }
  }

  /** Splitting the lines in two: the total of the whole is the sum of the two totals. */
  lemma SumParsedConcat<T>(a: seq<string>, b: seq<string>, parse: string -> Result<T>, f: T -> nat)
    requires SumParsed(a, parse, f).Ok? && SumParsed(b, parse, f).Ok?
    ensures SumParsed(a + b, parse, f) == Ok(SumParsed(a, parse, f).value + SumParsed(b, parse, f).value)
  {
    SumParsedOk(a, parse, f);
    SumParsedOk(b, parse, f);
    var ab := a + b;
    forall i | 0 <= i < |ab| ensures parse(ab[i]).Ok? {
      if i >= |a| {
        assert ab[i] == b[i - |a|];
      }
    }
    SumParsedByLine(a, parse, f);
    SumParsedByLine(b, parse, f);
    SumParsedByLine(ab, parse, f);
    SumOfConcat(a, b, line => LineScore(parse, f, line));
  }

  /** Reordering the lines leaves the total unchanged. */
  lemma SumParsedPermutation<T>(a: seq<string>, b: seq<string>, parse: string -> Result<T>, f: T -> nat)
    requires SumParsed(a, parse, f).Ok?
    requires multiset(a) == multiset(b)
    ensures SumParsed(b, parse, f) == SumParsed(a, parse, f)
  {
    SumParsedOk(a, parse, f);
    forall i | 0 <= i < |b| ensures parse(b[i]).Ok? {
      assert b[i] in multiset(a);
    }
    SumParsedByLine(a, parse, f);
    SumParsedByLine(b, parse, f);
    SumOfPermutation(a, b, line => LineScore(parse, f, line));
  }

  /** Appending a line adds `f` of its value. */
  lemma SumParsedAppend<T>(lines: seq<string>, line: string, parse: string -> Result<T>, f: T -> nat, x: T)
    requires SumParsed(lines, parse, f).Ok?
    requires parse(line) == Ok(x)
    ensures SumParsed(lines + [line], parse, f) == Ok(SumParsed(lines, parse, f).value + f(x))
  {
    assert (lines + [line])[..|lines|] == lines;
  }

  /** The fold body of `sum_valid_games_from_lines`: the id of a valid game, 0 for one that is not. */
  function ValidId(g: Game): nat {
    if GameIsValid(g) then g.id else 0
  }

  /** `sum_valid_games_from_lines` (lines 194-204). */
  function SumValidGames(lines: seq<string>): Result<nat> {
    SumParsed(lines, ParseGame, ValidId)
  }

  /** `sum_of_power_of_min_set_of_cubes_from_lines` (lines 206-212). */
  function SumOfPowers(lines: seq<string>): Result<nat> {
    SumParsed(lines, ParseGame, Power)
  }

  /** The games among `games` that are valid, in order. */
  function ValidGames(games: seq<Game>): (valid: seq<Game>)
    ensures forall i :: 0 <= i < |valid| ==> GameIsValid(valid[i])
    decreases |games|
  {
    if |games| == 0 then []
    else
      var n := |games| - 1;
      if GameIsValid(games[n]) then ValidGames(games[..n]) + [games[n]] else ValidGames(games[..n])
  }

  function GameId(g: Game): nat {
    g.id
  }

  lemma {:induction false} SumOfValidIds(games: seq<Game>)
    ensures SumOf(games, ValidId) == SumOf(ValidGames(games), GameId)
    decreases |games|
  {
    if |games| > 0 {
      var n := |games| - 1;
      SumOfValidIds(games[..n]);
      var v := ValidGames(games[..n]);
      if GameIsValid(games[n]) {
        assert (v + [games[n]])[..|v|] == v;
      }
    }
  }

  /** The first total adds up the ids of exactly the valid games, each once, in order. */
  lemma SumValidGamesSpec(lines: seq<string>)
    requires TryMap(lines, ParseGame).Ok?
    ensures SumValidGames(lines) == Ok(SumOf(ValidGames(TryMap(lines, ParseGame).value), GameId))
  {
    SumParsedIsSumOf(lines, ParseGame, ValidId);
    SumOfValidIds(TryMap(lines, ParseGame).value);
  }

  /** The second total adds every game's power, valid or not. */
  lemma SumOfPowersSpec(lines: seq<string>)
    requires TryMap(lines, ParseGame).Ok?
    ensures SumOfPowers(lines) == Ok(SumOf(TryMap(lines, ParseGame).value, Power))
  {
    SumParsedIsSumOf(lines, ParseGame, Power);
  }

  /* ---------------------------------------------------------------------
   * Writing records back: the parser inverts the obvious printer
   * ------------------------------------------------------------------- */

  /** `<count> <colour>`. */
  function FormatDraw(d: Draw): string {
    ToDecimal(d.count) + " " + ColorName(d.color)
  }

  /** The comma pieces of a printed set: the first draw bare, the others after a space. */
  function DrawPieces(ds: seq<Draw>): (pieces: seq<string>)
    ensures |pieces| == |ds|
  {
    seq(|ds|, i requires 0 <= i < |ds| => if i == 0 then FormatDraw(ds[i]) else " " + FormatDraw(ds[i]))
  }

  /** `<draw>, <draw>, ...`. */
  function FormatCubeSet(ds: seq<Draw>): string
    requires |ds| > 0
  {
    Join(DrawPieces(ds), ',')
  }

  predicate CountsFit(ds: seq<Draw>) {
    forall i :: 0 <= i < |ds| ==> ds[i].count <= U32_MAX
  }

  lemma ColorNameChars(c: CubeColor)
    ensures |ColorName(c)| > 0 && AllSatisfy(ColorName(c), IsWordChar)
    ensures forall i :: 0 <= i < |ColorName(c)| ==>
      !IsWhitespace(ColorName(c)[i]) && ColorName(c)[i] != ':' && ColorName(c)[i] != ';' && ColorName(c)[i] != ','
  {
  }

  /** A printed draw is its count and its colour, and holds no separator. */
  lemma FormatDrawShape(d: Draw)
    ensures Words(FormatDraw(d)) == [ToDecimal(d.count), ColorName(d.color)]
    ensures forall i :: 0 <= i < |FormatDraw(d)| ==>
      FormatDraw(d)[i] != ':' && FormatDraw(d)[i] != ';' && FormatDraw(d)[i] != ','
    ensures !IsWhitespace(FormatDraw(d)[0]) && !IsWhitespace(FormatDraw(d)[|FormatDraw(d)| - 1])
  {
    var n, c := ToDecimal(d.count), ColorName(d.color);
    DigitsAreWordChars(n);
    ColorNameChars(d.color);
    assert FormatDraw(d) == n + [' '] + c;
    WordsSplitAt(n, ' ', c);
    WordsSingle(n);
    WordsSingle(c);
  }

  /** A printed draw parses back to itself, with or without a leading space. */
  lemma ParsePieceRoundTrip(d: Draw)
    requires d.count <= U32_MAX
    ensures ParsePiece(FormatDraw(d)) == Ok(d)
    ensures ParsePiece(" " + FormatDraw(d)) == Ok(d)
  {
    FormatDrawShape(d);
    ParseColorName(d.color);
    ParseU32RoundTrip(d.count);
    assert " " + FormatDraw(d) == [] + [' '] + FormatDraw(d);
    WordsSplitAt([], ' ', FormatDraw(d));
    assert Words([]) == [];
  }

  /** The pieces of a printed set are the printed draws. */
  lemma FormatCubeSetPieces(ds: seq<Draw>)
    requires |ds| > 0
    ensures Pieces(FormatCubeSet(ds)) == DrawPieces(ds)
  {
    var pieces := DrawPieces(ds);
    forall i | 0 <= i < |pieces| ensures ',' !in pieces[i] {
      FormatDrawShape(ds[i]);
    }
    SplitIsUnique(FormatCubeSet(ds), ',', pieces);
  }

  /** A printed set parses back to the counts its draws record, the last draw of a colour winning. */
  lemma ParseCubeSetRoundTrip(ds: seq<Draw>)
    requires |ds| > 0 && CountsFit(ds)
    ensures ParseCubeSet(FormatCubeSet(ds)) == Ok(CubeSet(Tally(ds)))
  {
    var pieces := DrawPieces(ds);
    FormatCubeSetPieces(ds);
    forall i | 0 <= i < |pieces| ensures ParsePiece(pieces[i]) == Ok(ds[i]) {
      ParsePieceRoundTrip(ds[i]);
    }
    TryMapOk(pieces, ParsePiece);
    assert TryMap(pieces, ParsePiece).value == ds;
  }

  /** The comma pieces of a printed set hold no `:` or `;` and are not empty. */
  lemma DrawPiecesShape(ds: seq<Draw>)
    ensures forall i :: 0 <= i < |ds| ==>
      ':' !in DrawPieces(ds)[i] && ';' !in DrawPieces(ds)[i] && |DrawPieces(ds)[i]| > 0
  {
    var pieces := DrawPieces(ds);
    forall i | 0 <= i < |pieces| ensures ':' !in pieces[i] && ';' !in pieces[i] && |pieces[i]| > 0 {
      FormatDrawShape(ds[i]);
    }
  }

  /** A printed set holds no `:` or `;`, and starts and ends with a non-space. */
  lemma FormatCubeSetShape(ds: seq<Draw>)
    requires |ds| > 0
    ensures ':' !in FormatCubeSet(ds) && ';' !in FormatCubeSet(ds)
    ensures |FormatCubeSet(ds)| > 0
    ensures !IsWhitespace(FormatCubeSet(ds)[0])
    ensures !IsWhitespace(FormatCubeSet(ds)[|FormatCubeSet(ds)| - 1])
  {
    var pieces := DrawPieces(ds);
    DrawPiecesShape(ds);
    JoinExcludes(pieces, ',', ':');
    JoinExcludes(pieces, ',', ';');
    FormatDrawShape(ds[0]);
    FormatDrawShape(ds[|ds| - 1]);
    var last := FormatDraw(ds[|ds| - 1]);
    assert pieces[0] == FormatDraw(ds[0]);
    assert pieces[|ds| - 1][|pieces[|ds| - 1]| - 1] == last[|last| - 1];
    JoinEnds(pieces, ',');
  }

  predicate PrintableSets(dss: seq<seq<Draw>>) {
    |dss| > 0 && forall i :: 0 <= i < |dss| ==> |dss[i]| > 0 && CountsFit(dss[i])
  }

  /** The `;` fragments of a printed body: the first set bare, the others after a space. */
  function SetTexts(dss: seq<seq<Draw>>): (texts: seq<string>)
    requires PrintableSets(dss)
    ensures |texts| == |dss|
  {
    seq(|dss|, i requires 0 <= i < |dss| =>
      if i == 0 then FormatCubeSet(dss[i]) else " " + FormatCubeSet(dss[i]))
  }

  /** `Game <id>: <set>; <set>; ...`. */
  function FormatGame(id: nat, dss: seq<seq<Draw>>): string
    requires PrintableSets(dss)
  {
    "Game " + ToDecimal(id) + [':'] + (" " + Join(SetTexts(dss), ';'))
  }

  /** The sets a printed game's draws describe. */
  function SetsOf(dss: seq<seq<Draw>>): (sets: seq<CubeSet>)
    ensures |sets| == |dss|
  {
    seq(|dss|, i requires 0 <= i < |dss| => CubeSet(Tally(dss[i])))
  }

  /** The body of a printed game, and its shape. */
  lemma FormatBodyShape(dss: seq<seq<Draw>>)
    requires PrintableSets(dss)
    ensures ':' !in Join(SetTexts(dss), ';')
    ensures |Join(SetTexts(dss), ';')| > 0
    ensures !IsWhitespace(Join(SetTexts(dss), ';')[0])
    ensures !IsWhitespace(Join(SetTexts(dss), ';')[|Join(SetTexts(dss), ';')| - 1])
    ensures Split(Join(SetTexts(dss), ';'), ';') == SetTexts(dss)
  {
    var texts := SetTexts(dss);
    forall i | 0 <= i < |texts| ensures ':' !in texts[i] && ';' !in texts[i] && |texts[i]| > 0 {
      FormatCubeSetShape(dss[i]);
    }
    JoinExcludes(texts, ';', ':');
    FormatCubeSetShape(dss[0]);
    FormatCubeSetShape(dss[|dss| - 1]);
    var last := FormatCubeSet(dss[|dss| - 1]);
    assert texts[|dss| - 1][|texts[|dss| - 1]| - 1] == last[|last| - 1];
    JoinEnds(texts, ';');
    SplitIsUnique(Join(texts, ';'), ';', texts);
  }

  /** Trimming the `;` fragments of a printed body leaves the printed sets. */
  lemma TrimSetTexts(dss: seq<seq<Draw>>)
    requires PrintableSets(dss)
    ensures TrimAll(SetTexts(dss)) == seq(|dss|, i requires 0 <= i < |dss| => FormatCubeSet(dss[i]))
  {
    forall i | 0 <= i < |dss| ensures Trim(SetTexts(dss)[i]) == FormatCubeSet(dss[i]) {
      FormatCubeSetShape(dss[i]);
      if i > 0 {
        TrimLeadingSpace(FormatCubeSet(dss[i]));
      }
    }
  }

  /** The body of `<header>: <body>` is `<body>` when neither holds a `:` and the body is trimmed. */
  lemma BodyOfLine(h: string, body: string)
    requires ':' !in h && ':' !in body
    requires |body| > 0 && !IsWhitespace(body[0]) && !IsWhitespace(body[|body| - 1])
    ensures Body(h + [':'] + (" " + body)) == body
  {
    assert ':' !in " " + body;
    HeaderOfLine(h, " " + body);
    SplitNoSeparator(" " + body, ':');
    TrimLeadingSpace(body);
  }

  /** The body of `Game <digits>: <body>` is `<body>` when the body holds no `:` and is trimmed. */
  lemma GameLineBody(d: string, body: string)
    requires AllSatisfy(d, IsAsciiDigit)
    requires ':' !in body
    requires |body| > 0 && !IsWhitespace(body[0]) && !IsWhitespace(body[|body| - 1])
    ensures Body("Game " + d + [':'] + (" " + body)) == body
  {
    DigitsAreWordChars(d);
    assert ':' !in "Game " + d;
    BodyOfLine("Game " + d, body);
  }

  /** The body of a printed game is its sets joined by `;`. */
  lemma FormatGameBody(id: nat, dss: seq<seq<Draw>>)
    requires PrintableSets(dss)
    ensures Body(FormatGame(id, dss)) == Join(SetTexts(dss), ';')
  {
    FormatBodyShape(dss);
    GameLineBody(ToDecimal(id), Join(SetTexts(dss), ';'));
  }

  /** The fragments of a printed game are its printed sets. */
  lemma FormatGameFragments(id: nat, dss: seq<seq<Draw>>)
    requires PrintableSets(dss)
    ensures Fragments(FormatGame(id, dss)) == seq(|dss|, i requires 0 <= i < |dss| => FormatCubeSet(dss[i]))
  {
    FormatGameBody(id, dss);
    FormatBodyShape(dss);
    TrimSetTexts(dss);
  }

  /** The id token of a printed game is its printed id. */
  lemma FormatGameIdToken(id: nat, dss: seq<seq<Draw>>)
    requires PrintableSets(dss)
    ensures IdToken(FormatGame(id, dss)) == ToDecimal(id)
  {
    var d := ToDecimal(id);
    var body := Join(SetTexts(dss), ';');
    assert FormatGame(id, dss) == "Game " + d + [':'] + (" " + body);
    GameLineIdToken(d, " " + body);
  }

  /**
   * A printed game parses back: its id, the sets its draws describe, in
   * order, and the minimal bag of those sets.
   */
  lemma ParseGameRoundTrip(id: nat, dss: seq<seq<Draw>>)
    requires id <= U32_MAX && PrintableSets(dss)
    ensures ParseGame(FormatGame(id, dss)) == Ok(Game(id, SetsOf(dss), MinSet(SetsOf(dss))))
  {
    FormatGameIdToken(id, dss);
    ParseU32RoundTrip(id);
    FormatGameFragments(id, dss);
    PrintedSetsParse(ToDecimal(id), id, dss);
  }

  /** An id token that reads as `id` and the printed sets make the game they describe. */
  lemma PrintedSetsParse(idToken: string, id: nat, dss: seq<seq<Draw>>)
    requires ParseU32(idToken) == Some(id) && PrintableSets(dss)
    ensures GameFromParts(idToken, seq(|dss|, i requires 0 <= i < |dss| => FormatCubeSet(dss[i])))
            == Ok(Game(id, SetsOf(dss), MinSet(SetsOf(dss))))
  {
    var fragments := seq(|dss|, i requires 0 <= i < |dss| => FormatCubeSet(dss[i]));
    forall i | 0 <= i < |fragments| ensures ParseCubeSet(fragments[i]) == Ok(SetsOf(dss)[i]) {
      ParseCubeSetRoundTrip(dss[i]);
    }
    TryMapOk(fragments, ParseCubeSet);
    assert TryMap(fragments, ParseCubeSet).value == SetsOf(dss);
  }
}
