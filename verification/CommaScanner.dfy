/** The scanner that splits the body of a TypeScript object type at its top-level commas. */
module CommaScanner {
  import opened Common

  /** Four nesting depths, two quote modes, two comment modes. */
  datatype Scan = Scan(
    brace: nat, bracket: nat, paren: nat, angle: nat,
    inSingle: bool, inDouble: bool, inBlockComment: bool, inLineComment: bool)

  const NEUTRAL := Scan(0, 0, 0, 0, false, false, false, false)

  /** One turn of the scanner: the state after it, how many characters it consumed, whether it cut here. */
  datatype Turn = Turn(scan: Scan, width: nat, cut: bool)

  function Less(depth: nat): nat {
    if depth == 0 then 0 else depth - 1
  }

  function Peek(chars: string, i: int): Option<char> {
    if 0 <= i < |chars| then Some(chars[i]) else None
  }

  function Nest(st: Scan, ch: char): Scan {
    match ch
    case '{' => st.(brace := st.brace + 1)
    case '}' => st.(brace := Less(st.brace))
    case '[' => st.(bracket := st.bracket + 1)
    case ']' => st.(bracket := Less(st.bracket))
    case '(' => st.(paren := st.paren + 1)
    case ')' => st.(paren := Less(st.paren))
    case '<' => st.(angle := st.angle + 1)
    case '>' => st.(angle := Less(st.angle))
    case _ => st
  }

  function TurnOn(st: Scan, prev: Option<char>, ch: char, next: Option<char>): Turn {
    if st.inBlockComment then
      if ch == '*' && next == Some('/') then Turn(st.(inBlockComment := false), 2, false) else Turn(st, 1, false)
    else if st.inLineComment then
      Turn(st.(inLineComment := ch != '\n'), 1, false)
    else if ch == '/' && next == Some('*') then Turn(st.(inBlockComment := true), 2, false)
    else if ch == '/' && next == Some('/') then Turn(st.(inLineComment := true), 2, false)
    else if ch == '\'' && !st.inDouble && prev != Some('\\') then Turn(st.(inSingle := !st.inSingle), 1, false)
    else if ch == '"' && !st.inSingle && prev != Some('\\') then Turn(st.(inDouble := !st.inDouble), 1, false)
    else if !st.inSingle && !st.inDouble then
      Turn(Nest(st, ch), 1, ch == ',' && st.brace == 0 && st.bracket == 0 && st.paren == 0 && st.angle == 0)
    else Turn(st, 1, false)
  }

  function TurnAt(chars: string, i: nat, st: Scan): Turn
    requires i < |chars|
  {
    TurnOn(st, Peek(chars, i - 1), chars[i], Peek(chars, i + 1))
  }

  /** The scanner consumes one or two characters of the text, and cuts only in the neutral state. */
  lemma TurnFacts(chars: string, i: nat, st: Scan)
    requires i < |chars|
    ensures var t := TurnAt(chars, i, st);
      && 1 <= t.width <= 2 && i + t.width <= |chars|
      && (t.cut ==> st == NEUTRAL == t.scan && chars[i] == ',' && t.width == 1)
      && (st == NEUTRAL && chars[i] == ',' ==> t.cut)
  {
  }

  /** Pieces of `chars[start..]`, the scanner standing at `i` in state `st`. */
  function Pieces(chars: string, start: nat, i: nat, st: Scan): seq<string>
    requires start <= i <= |chars|
    decreases |chars| - i
  {
    if i == |chars| then
      if start < |chars| then [chars[start..]] else []
    else
      TurnFacts(chars, i, st);
      var t := TurnAt(chars, i, st);
      if t.cut then [chars[start..i]] + Pieces(chars, i + 1, i + 1, t.scan)
      else Pieces(chars, start, i + t.width, t.scan)
  }

  function Split(input: string): seq<string> {
    Pieces(input, 0, 0, NEUTRAL)
  }

  /** The source's loop: every local it keeps, updated in place. */
  method SplitTopLevelCommas(input: string) returns (out: seq<string>)
    ensures out == Split(input)
  {
    out := [];
    var start, i := 0, 0;
    var brace: nat, bracket: nat, paren: nat, angle: nat := 0, 0, 0, 0;
    var inSingle, inDouble, inBlockComment, inLineComment := false, false, false, false;
    while i < |input|
      invariant start <= i <= |input|
      invariant out + Pieces(input, start, i,
                             Scan(brace, bracket, paren, angle, inSingle, inDouble, inBlockComment, inLineComment))
                == Split(input)
    {
      var ch, next, prev := input[i], Peek(input, i + 1), Peek(input, i - 1);
      TurnFacts(input, i, Scan(brace, bracket, paren, angle, inSingle, inDouble, inBlockComment, inLineComment));
      if inBlockComment {
        if ch == '*' && next == Some('/') {
          inBlockComment := false;
          i := i + 2;
          continue;
        }
        i := i + 1;
        continue;
      }
      if inLineComment {
        if ch == '\n' { inLineComment := false; }
        i := i + 1;
        continue;
      }
      if ch == '/' && next == Some('*') {
        inBlockComment := true;
        i := i + 2;
        continue;
      }
      if ch == '/' && next == Some('/') {
        inLineComment := true;
        i := i + 2;
        continue;
      }
      if ch == '\'' && !inDouble && prev != Some('\\') {
        inSingle := !inSingle;
      } else if ch == '"' && !inSingle && prev != Some('\\') {
        inDouble := !inDouble;
      } else if !inSingle && !inDouble {
        match ch
        case '{' => brace := brace + 1;
        case '}' => brace := Less(brace);
        case '[' => bracket := bracket + 1;
        case ']' => bracket := Less(bracket);
        case '(' => paren := paren + 1;
        case ')' => paren := Less(paren);
        case '<' => angle := angle + 1;
        case '>' => angle := Less(angle);
        case ',' =>
          if brace == 0 && bracket == 0 && paren == 0 && angle == 0 {
            out := out + [input[start..i]];
            start := i + 1;
          }
        case _ =>
      }
      i := i + 1;
    }
    if start < |input| {
      out := out + [input[start..]];
    }
  }

  // ---------------------------------------------------------------- where the cuts are

  /** Where a turn of the given width, taken at `i` in state `before`, leads. */
  function Landed(chars: string, i: nat, before: Option<Scan>, width: nat): Option<Scan>
    requires i < |chars|
  {
    if before.Some? && TurnAt(chars, i, before.value).width == width then Some(TurnAt(chars, i, before.value).scan)
    else None
  }

  /** Arrival at `i` by a turn of one character taken in state `one`, or of two taken in state `two`. */
  function Arrival(chars: string, i: nat, one: Option<Scan>, two: Option<Scan>): Option<Scan>
    requires 0 < i <= |chars|
  {
    var near := Landed(chars, i - 1, one, 1);
    if near.Some? || i == 1 then near else Landed(chars, i - 2, two, 2)
  }

  /** The state in which the scanner arrives at `i`, or `None` if it steps over `i`. */
  function Arrives(chars: string, i: nat): Option<Scan>
    requires i <= |chars|
  {
    if i == 0 then Some(NEUTRAL)
    else Arrival(chars, i, Arrives(chars, i - 1), if i == 1 then None else Arrives(chars, i - 2))
  }

  /** A comma at which the scanner arrives in the neutral state. */
  predicate IsCut(chars: string, i: nat) {
    i < |chars| && chars[i] == ',' && Arrives(chars, i) == Some(NEUTRAL)
  }

  lemma ArrivesNext(chars: string, i: nat)
    requires i < |chars| && Arrives(chars, i).Some?
    ensures var t := TurnAt(chars, i, Arrives(chars, i).value);
      && i + t.width <= |chars| && Arrives(chars, i + t.width) == Some(t.scan)
      && (t.width == 2 ==> Arrives(chars, i + 1).None?)
  {
    var st := Arrives(chars, i).value;
    TurnFacts(chars, i, st);
    var t := TurnAt(chars, i, st);
    if t.width == 2 {
      if i >= 1 && Arrives(chars, i - 1).Some? {
        TurnFacts(chars, i - 1, Arrives(chars, i - 1).value);
        var u := TurnAt(chars, i - 1, Arrives(chars, i - 1).value);
        assert u.width == 1 ==> u.scan == st;
        assert u.width == 1;
      }
    }
  }

  /** The text cut at every position that is a cut, looked at one by one; nothing after a cut at the very end. */
  function Slices(chars: string, start: nat, i: nat): seq<string>
    requires start <= i <= |chars|
    decreases |chars| - i
  {
    if i == |chars| then
      if start < |chars| then [chars[start..]] else []
    else if IsCut(chars, i) then [chars[start..i]] + Slices(chars, i + 1, i + 1)
    else Slices(chars, start, i + 1)
  }

  /** A turn that does not cut moves `Slices` on by its width. */
  lemma SlicesSkip(chars: string, start: nat, i: nat)
    requires start <= i < |chars| && Arrives(chars, i).Some? && !IsCut(chars, i)
    ensures var w := TurnAt(chars, i, Arrives(chars, i).value).width;
      i + w <= |chars| && Slices(chars, start, i) == Slices(chars, start, i + w)
  {
    TurnFacts(chars, i, Arrives(chars, i).value);
    ArrivesNext(chars, i);
    assert Slices(chars, start, i) == Slices(chars, start, i + 1);
    if TurnAt(chars, i, Arrives(chars, i).value).width == 2 {
      assert !IsCut(chars, i + 1);
      assert Slices(chars, start, i + 1) == Slices(chars, start, i + 2);
    }
  }

  lemma {:induction false} PiecesAreSlices(chars: string, start: nat, i: nat)
    requires start <= i <= |chars| && Arrives(chars, i).Some?
    ensures Pieces(chars, start, i, Arrives(chars, i).value) == Slices(chars, start, i)
    decreases |chars| - i
  {
    if i < |chars| {
      var t := TurnAt(chars, i, Arrives(chars, i).value);
      TurnFacts(chars, i, Arrives(chars, i).value);
      ArrivesNext(chars, i);
      if t.cut {
        PiecesAreSlices(chars, i + 1, i + 1);
      } else {
        SlicesSkip(chars, start, i);
        PiecesAreSlices(chars, start, i + t.width);
      }
    }
  }

  /** The pieces are the text between exactly those commas that the scanner meets in its neutral state. */
  lemma CutsAreNeutralCommas(input: string)
    ensures Split(input) == Slices(input, 0, 0)
  {
    PiecesAreSlices(input, 0, 0);
  }

  // ---------------------------------------------------------------- joining gives the text back

  function Join(pieces: seq<string>): string {
    if |pieces| == 0 then ""
    else if |pieces| == 1 then pieces[0]
    else pieces[0] + "," + Join(pieces[1..])
  }

  /** The comma that joining cannot give back: a cut at the very end of the text. */
  function LastComma(chars: string, start: nat): string {
    if start < |chars| && IsCut(chars, |chars| - 1) then "," else ""
  }

  lemma {:induction false} JoinSlices(chars: string, start: nat, i: nat)
    requires start <= i <= |chars| && forall k :: start <= k < i ==> !IsCut(chars, k)
    ensures Join(Slices(chars, start, i)) + LastComma(chars, start) == chars[start..]
    ensures start < |chars| ==> |Slices(chars, start, i)| > 0
    decreases |chars| - i
  {
    if i < |chars| {
      if IsCut(chars, i) {
        JoinSlices(chars, i + 1, i + 1);
        var rest, last := Slices(chars, i + 1, i + 1), LastComma(chars, i + 1);
        JoinOne(chars[start..i], rest);
        CutText(chars, start, i, Join(rest), last);
      } else {
        JoinSlices(chars, start, i + 1);
      }
    }
  }

  lemma CutText(chars: string, start: nat, i: nat, joined: string, last: string)
    requires start <= i < |chars| && chars[i] == ','
    requires joined + last == chars[i + 1..]
    ensures chars[start..i] + "," + joined + last == chars[start..]
    ensures i + 1 == |chars| ==> joined == ""
  {
    assert chars[start..] == chars[start..i] + "," + chars[i + 1..];
    assert chars[start..i] + "," + joined + last == chars[start..i] + "," + (joined + last);
  }

  lemma JoinOne(p: string, rest: seq<string>)
    ensures Join([p] + rest) == if |rest| == 0 then p else p + "," + Join(rest)
  {
    assert ([p] + rest)[1..] == rest;
  }

  /** Joining the pieces with commas gives back the text, but for one comma when the text ends in a cut. */
  lemma RoundTrip(input: string)
    ensures Join(Split(input)) + LastComma(input, 0) == input
  {
    CutsAreNeutralCommas(input);
    JoinSlices(input, 0, 0);
    assert input[0..] == input;
  }

  // ---------------------------------------------------------------- a piece is scanned as it was in the text

  /** `p` stands in `chars` at `at`, at the ends of the text or between commas. */
  ghost predicate StandsAt(chars: string, p: string, at: nat) {
    && at + |p| <= |chars| && chars[at..at + |p|] == p
    && (at == 0 || chars[at - 1] == ',')
    && (at + |p| == |chars| || chars[at + |p|] == ',')
  }

  lemma TurnShift(chars: string, p: string, at: nat, j: nat, st: Scan)
    requires StandsAt(chars, p, at) && j < |p|
    ensures TurnAt(chars, at + j, st) == TurnAt(p, j, st)
  {
    assert chars[at + j] == p[j];
    if j > 0 { assert chars[at + j - 1] == p[j - 1]; }
    if j + 1 < |p| { assert chars[at + j + 1] == p[j + 1]; }
  }

  lemma LandedShift(chars: string, p: string, at: nat, j: nat, before: Option<Scan>, width: nat)
    requires StandsAt(chars, p, at) && j < |p|
    ensures Landed(chars, at + j, before, width) == Landed(p, j, before, width)
  {
    if before.Some? { TurnShift(chars, p, at, j, before.value); }
  }

  /** A comma is never the first of two characters consumed together. */
  lemma CommaIsNarrow(chars: string, i: nat, before: Option<Scan>)
    requires i < |chars| && chars[i] == ','
    ensures Landed(chars, i, before, 2) == None
  {
  }

  lemma ArrivalShift(
    chars: string, p: string, at: nat, j: nat, one: Option<Scan>, two: Option<Scan>, other: Option<Scan>)
    requires StandsAt(chars, p, at) && 0 < j <= |p| && (j > 1 ==> other == two)
    ensures Arrival(chars, at + j, one, other) == Arrival(p, j, one, two)
  {
    LandedShift(chars, p, at, j - 1, one, 1);
    if j > 1 {
      LandedShift(chars, p, at, j - 2, two, 2);
    } else if at > 0 {
      CommaIsNarrow(chars, at - 1, other);
    }
  }

  /** The state before the last, if there is one. */
  function Earlier(chars: string, i: nat): Option<Scan>
    requires 0 < i <= |chars|
  {
    if i == 1 then None else Arrives(chars, i - 2)
  }

  /** Position `i` of the text is position `j` of the piece, and so are the positions before. */
  ghost predicate ArriveAlike(chars: string, p: string, i: nat, j: nat)
    requires i <= |chars| && j <= |p|
  {
    Arrives(chars, i) == Arrives(p, j)
  }

  lemma ArriveAlikeNext(chars: string, p: string, at: nat, i: nat, j: nat)
    requires StandsAt(chars, p, at) && i == at + j && 0 < j <= |p|
    requires ArriveAlike(chars, p, i - 1, j - 1) && (j > 1 ==> ArriveAlike(chars, p, i - 2, j - 2))
    ensures ArriveAlike(chars, p, i, j)
  {
    ArrivalShift(chars, p, at, j, Arrives(p, j - 1), Earlier(p, j), Earlier(chars, i));
  }

  lemma {:induction false} ArrivesShift(chars: string, p: string, at: nat, i: nat, j: nat)
    requires StandsAt(chars, p, at) && i == at + j && j <= |p| && Arrives(chars, at) == Some(NEUTRAL)
    ensures ArriveAlike(chars, p, i, j) && (j > 0 ==> ArriveAlike(chars, p, i - 1, j - 1))
    decreases j
  {
    if j > 0 {
      ArrivesShift(chars, p, at, i - 1, j - 1);
      ArriveAlikeNext(chars, p, at, i, j);
    }
  }

  lemma CutShift(chars: string, p: string, at: nat, j: nat)
    requires StandsAt(chars, p, at) && j < |p| && Arrives(chars, at) == Some(NEUTRAL)
    ensures IsCut(chars, at + j) <==> IsCut(p, j)
  {
    ArrivesShift(chars, p, at, at + j, j);
    assert chars[at + j] == p[j];
  }

  /** From a start without cuts up to `c`, the slices are the text up to `c` and those after it. */
  lemma {:induction false} SlicesToFirst(chars: string, start: nat, i: nat, c: nat)
    requires start <= i <= c <= |chars| && forall k :: i <= k < c ==> !IsCut(chars, k)
    requires c < |chars| ==> IsCut(chars, c)
    ensures Slices(chars, start, i) ==
              if c < |chars| then [chars[start..c]] + Slices(chars, c + 1, c + 1)
              else if start < |chars| then [chars[start..]] else []
    decreases c - i
  {
    if i < c { SlicesToFirst(chars, start, i + 1, c); }
  }

  /** Slices from `start` on begin at the start of the text or after a comma, in the neutral state. */
  ghost predicate StartsPiece(chars: string, start: nat)
    requires start <= |chars|
  {
    Arrives(chars, start) == Some(NEUTRAL) && (start == 0 || chars[start - 1] == ',')
  }

  ghost predicate StandsUncut(chars: string, p: string, at: nat) {
    && StandsAt(chars, p, at) && Arrives(chars, at) == Some(NEUTRAL)
    && forall j :: at <= j < at + |p| ==> !IsCut(chars, j)
  }

  lemma AfterCut(chars: string, i: nat)
    requires IsCut(chars, i)
    ensures StartsPiece(chars, i + 1)
  {
    ArrivesNext(chars, i);
  }

  /** Every slice stands between commas, is entered in the neutral state, and holds no cut. */
  lemma {:induction false} SliceStands(chars: string, start: nat, i: nat, k: nat) returns (at: nat)
    requires start <= i <= |chars| && StartsPiece(chars, start)
    requires forall j :: start <= j < i ==> !IsCut(chars, j)
    requires k < |Slices(chars, start, i)|
    ensures StandsUncut(chars, Slices(chars, start, i)[k], at)
    decreases |chars| - i
  {
    if i == |chars| {
      at := start;
    } else {
      SlicesStep(chars, start, i, IsCut(chars, i));
      if IsCut(chars, i) {
        if k == 0 {
          at := start;
        } else {
          AfterCut(chars, i);
          at := SliceStands(chars, i + 1, i + 1, k - 1);
        }
      } else {
        at := SliceStands(chars, start, i + 1, k);
      }
    }
  }

  /** Splitting a piece again gives just that piece; an empty piece gives none. */
  lemma PiecesDoNotSplit(input: string, k: nat)
    requires k < |Split(input)|
    ensures Split(Split(input)[k]) == if Split(input)[k] == "" then [] else [Split(input)[k]]
  {
    var p := Split(input)[k];
    CutsAreNeutralCommas(input);
    var at := SliceStands(input, 0, 0, k);
    forall j | 0 <= j < |p| ensures !IsCut(p, j) { CutShift(input, p, at, j); }
    SlicesToFirst(p, 0, 0, |p|);
    CutsAreNeutralCommas(p);
    assert p[0..] == p;
  }

  // ---------------------------------------------------------------- splitting undoes joining

  /** The scanner leaves `p` in its neutral state without having cut it. */
  ghost predicate Closed(p: string) {
    Arrives(p, |p|) == Some(NEUTRAL) && forall i :: 0 <= i < |p| ==> !IsCut(p, i)
  }

  /** One position of `Slices`, with the slice text given. */
  lemma SlicesStep(chars: string, start: nat, i: nat, cut: bool)
    requires start <= i < |chars| && (cut <==> IsCut(chars, i))
    ensures Slices(chars, start, i)
            == if cut then [chars[start..i]] + Slices(chars, i + 1, i + 1) else Slices(chars, start, i + 1)
  {
  }

  lemma SameText(chars: string, p: string, at: nat, start: nat, i: nat)
    requires at + |p| == |chars| && chars[at..at + |p|] == p && start <= i <= |p|
    ensures chars[at + start..at + i] == p[start..i] && chars[at + start..] == p[start..]
  {
    assert chars[at..] == p;
  }

  lemma {:induction false} SlicesShift(chars: string, p: string, at: nat, start: nat, i: nat)
    requires StandsAt(chars, p, at) && at + |p| == |chars| && Arrives(chars, at) == Some(NEUTRAL) && start <= i <= |p|
    ensures Slices(chars, at + start, at + i) == Slices(p, start, i)
    decreases |p| - i
  {
    SameText(chars, p, at, start, i);
    if i < |p| {
      CutShift(chars, p, at, i);
      var cut := IsCut(p, i);
      SlicesStep(chars, at + start, at + i, cut);
      SlicesStep(p, start, i, cut);
      SlicesShift(chars, p, at, if cut then i + 1 else start, i + 1);
    }
  }

  /** Pieces that are closed, the last one not empty, survive joining and splitting. */
  lemma {:induction false} SplitUndoesJoin(pieces: seq<string>)
    requires |pieces| > 0 && pieces[|pieces| - 1] != ""
    requires forall k :: 0 <= k < |pieces| ==> Closed(pieces[k])
    ensures Split(Join(pieces)) == pieces
    decreases |pieces|
  {
    if |pieces| == 1 {
      var p := pieces[0];
      SlicesToFirst(p, 0, 0, |p|);
      CutsAreNeutralCommas(p);
      assert p[0..] == p;
    } else {
      SplitUndoesJoin(pieces[1..]);
      SplitAtClosed(pieces[0], Join(pieces[1..]));
    }
  }

  /** The comma after a closed text is the first cut. */
  lemma FirstCut(p: string, rest: string)
    requires Closed(p)
    ensures var chars := p + "," + rest;
      IsCut(chars, |p|) && (forall i :: 0 <= i < |p| ==> !IsCut(chars, i)) && Arrives(chars, |p| + 1) == Some(NEUTRAL)
  {
    var chars := p + "," + rest;
    assert StandsAt(chars, p, 0);
    ArrivesShift(chars, p, 0, |p|, |p|);
    forall i | 0 <= i < |p| ensures !IsCut(chars, i) { CutShift(chars, p, 0, i); }
    ArrivesNext(chars, |p|);
  }

  /** A closed text in front of a comma comes off as the first piece. */
  lemma SplitAtClosed(p: string, rest: string)
    requires Closed(p)
    ensures Split(p + "," + rest) == [p] + Split(rest)
  {
    var chars := p + "," + rest;
    FirstCut(p, rest);
    SlicesToFirst(chars, 0, 0, |p|);
    assert StandsAt(chars, rest, |p| + 1);
    SlicesShift(chars, rest, |p| + 1, 0, 0);
    CutsAreNeutralCommas(chars);
    CutsAreNeutralCommas(rest);
    assert chars[0..|p|] == p;
  }
}
