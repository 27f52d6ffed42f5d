/**
 Placeholders {{ name }} in message templates: the scanner that validation and rendering
 share, template validation and rendering (app/services/cms/validation.py,
 app/services/communication/templating.py).
 */
module Templates {
  import opened Shared
  import opened Sequences

  // ----- what a placeholder is -----

  /** Python's white space, for \s and for strip alike. */
  predicate IsSpace(c: char) {
    || '\t' <= c <= '\r' || '\U{1c}' <= c <= ' ' || c == '\U{85}' || c == '\U{a0}' || c == '\U{1680}'
    || '\U{2000}' <= c <= '\U{200a}' || c == '\U{2028}' || c == '\U{2029}' || c == '\U{202f}'
    || c == '\U{205f}' || c == '\U{3000}'
  }

  predicate StartsName(c: char) {
    'a' <= c <= 'z' || 'A' <= c <= 'Z' || c == '_'
  }

  predicate InName(c: char) {
    StartsName(c) || '0' <= c <= '9'
  }

  predicate IsName(name: string) {
    name != "" && StartsName(name[0]) && forall i :: 0 <= i < |name| ==> InName(name[i])
  }

  predicate Blank(s: string) {
    forall i :: 0 <= i < |s| ==> IsSpace(s[i])
  }

  /** body[from..to] is a placeholder for name. */
  ghost predicate MatchAt(body: string, from: nat, to: nat, name: string) {
    && from <= to <= |body|
    && exists left, right :: IsPlaceholder(body[from..to], left, name, right)
  }

  predicate IsPlaceholder(text: string, left: string, name: string, right: string) {
    text == "{{" + left + name + right + "}}" && Blank(left) && IsName(name) && Blank(right)
  }

  // ----- the scanner -----

  /** The end of the longest run of white space, or of name characters, from i on. */
  function RunEnd(body: string, i: nat, space: bool): (end: nat)
    requires i <= |body|
    ensures i <= end <= |body|
    decreases |body| - i
  {
    if i < |body| && InRun(body[i], space) then RunEnd(body, i + 1, space) else i
  }

  predicate InRun(c: char, space: bool) {
    if space then IsSpace(c) else InName(c)
  }

  lemma {:induction false} RunIsLongest(body: string, i: nat, space: bool)
    requires i <= |body|
    ensures var end := RunEnd(body, i, space);
            && (forall k :: i <= k < end ==> InRun(body[k], space))
            && (end < |body| ==> !InRun(body[end], space))
    decreases |body| - i
  {
    if i < |body| && InRun(body[i], space) {
      RunIsLongest(body, i + 1, space);
    }
  }

  datatype Match = Match(end: nat, name: string)

  predicate HasPair(body: string, i: nat, c: char) {
    i + 1 < |body| && body[i] == c && body[i + 1] == c
  }

  function ScanAt(body: string, i: nat): (m: Option<Match>)
    ensures m.Some? ==> i + 4 < m.value.end <= |body|
  {
    if !HasPair(body, i, '{') then None
    else
      var start := RunEnd(body, i + 2, true);
      if start == |body| || !StartsName(body[start]) then None
      else
        var stop := RunEnd(body, start, false);
        var close := RunEnd(body, stop, true);
        if HasPair(body, close, '}') then Some(Match(close + 2, body[start..stop])) else None
  }

  lemma BlankSlice(body: string, a: nat, b: nat)
    requires a <= b <= |body|
    ensures Blank(body[a..b]) <==> forall k :: a <= k < b ==> IsSpace(body[k])
  {
    forall k | a <= k < b ensures body[k] == body[a..b][k - a] {
    }
  }

  lemma NameSlice(body: string, a: nat, b: nat)
    requires a < b <= |body|
    ensures IsName(body[a..b]) <==> StartsName(body[a]) && forall k :: a <= k < b ==> InName(body[k])
  {
    forall k | a <= k < b ensures body[k] == body[a..b][k - a] {
    }
  }

  lemma PairSlice(body: string, i: nat, c: char)
    requires i + 2 <= |body|
    ensures HasPair(body, i, c) <==> body[i..i + 2] == [c, c]
  {
    assert body[i..i + 2] == [body[i], body[i + 1]];
  }

  lemma FiveParts(body: string, i: nat, start: nat, stop: nat, close: nat)
    requires i + 2 <= start <= stop <= close && close + 2 <= |body|
    ensures body[i..close + 2] ==
            body[i..i + 2] + body[i + 2..start] + body[start..stop] + body[stop..close] + body[close..close + 2]
  {
    SliceSplit(body, i, close, close + 2);
    SliceSplit(body, i, stop, close);
    SliceSplit(body, i, start, stop);
    SliceSplit(body, i, i + 2, start);
  }

  lemma ScanFindsMatch(body: string, i: nat)
    requires ScanAt(body, i).Some?
    ensures MatchAt(body, i, ScanAt(body, i).value.end, ScanAt(body, i).value.name)
  {
    var start := RunEnd(body, i + 2, true);
    var stop := RunEnd(body, start, false);
    var close := RunEnd(body, stop, true);
    FiveParts(body, i, start, stop, close);
    RunIsLongest(body, i + 2, true);
    RunIsLongest(body, start, false);
    RunIsLongest(body, stop, true);
    PairSlice(body, i, '{');
    PairSlice(body, close, '}');
    BlankSlice(body, i + 2, start);
    BlankSlice(body, stop, close);
    NameSlice(body, start, stop);
    assert IsPlaceholder(body[i..close + 2], body[i + 2..start], body[start..stop], body[stop..close]);
  }

  lemma {:induction false} RunEndIs(body: string, i: nat, end: nat, space: bool)
    requires i <= end < |body|
    requires forall k :: i <= k < end ==> InRun(body[k], space)
    requires !InRun(body[end], space)
    ensures RunEnd(body, i, space) == end
    decreases end - i
  {
    if i < end {
      RunEndIs(body, i + 1, end, space);
    }
  }

  /** The pieces of a placeholder, as positions in the body. */
  lemma PlaceholderLayout(body: string, i: nat, j: nat, left: string, name: string, right: string)
    requires i <= j <= |body| && IsPlaceholder(body[i..j], left, name, right)
    ensures var start, stop, close := i + 2 + |left|, i + 2 + |left| + |name|, j - 2;
            && close == stop + |right|
            && HasPair(body, i, '{') && HasPair(body, close, '}')
            && (forall k :: i + 2 <= k < start ==> IsSpace(body[k]))
            && body[start..stop] == name
            && (forall k :: stop <= k < close ==> IsSpace(body[k]))
  {
    var start, stop, close := i + 2 + |left|, i + 2 + |left| + |name|, j - 2;
    FivePieces(body, i, j, left, name, right);
    BlankSlice(body, i + 2, start);
    BlankSlice(body, stop, close);
    PairSlice(body, i, '{');
    PairSlice(body, close, '}');
  }

  lemma FivePieces(body: string, i: nat, j: nat, left: string, name: string, right: string)
    requires i <= j <= |body| && body[i..j] == "{{" + left + name + right + "}}"
    ensures var start, stop := i + 2 + |left|, i + 2 + |left| + |name|;
            && j == stop + |right| + 2
            && body[i..i + 2] == "{{" && body[i + 2..start] == left && body[start..stop] == name
            && body[stop..j - 2] == right && body[j - 2..j] == "}}"
  {
    var all := body[i..j];
    assert all == "" + "{{" + (left + name + right + "}}");
    PartOfSlice(body, i, j, "", "{{", left + name + right + "}}");
    assert all == "{{" + left + (name + right + "}}");
    PartOfSlice(body, i, j, "{{", left, name + right + "}}");
    assert all == "{{" + left + name + (right + "}}");
    PartOfSlice(body, i, j, "{{" + left, name, right + "}}");
    PartOfSlice(body, i, j, "{{" + left + name, right, "}}");
    assert all == "{{" + left + name + right + "}}" + "";
    PartOfSlice(body, i, j, "{{" + left + name + right, "}}", "");
  }

  lemma MatchIsScanned(body: string, i: nat, j: nat, left: string, name: string, right: string)
    requires i <= j <= |body| && IsPlaceholder(body[i..j], left, name, right)
    ensures ScanAt(body, i) == Some(Match(j, name))
  {
    PlaceholderLayout(body, i, j, left, name, right);
    var start, stop := i + 2 + |left|, i + 2 + |left| + |name|;
    NameSlice(body, start, stop);
    RunEndIs(body, i + 2, start, true);
    RunEndIs(body, start, stop, false);
    RunEndIs(body, stop, j - 2, true);
  }

  /** The match at a position is unique, and it is the one the scanner reports. */
  lemma ScanIsMatch(body: string, i: nat, j: nat, name: string)
    ensures MatchAt(body, i, j, name) <==> ScanAt(body, i) == Some(Match(j, name))
  {
    if MatchAt(body, i, j, name) {
      var left, right :| IsPlaceholder(body[i..j], left, name, right);
      MatchIsScanned(body, i, j, left, name, right);
    }
    if ScanAt(body, i) == Some(Match(j, name)) {
      ScanFindsMatch(body, i);
    }
  }

  // ----- literals and placeholders -----

  datatype Piece = Literal(c: char) | Variable(name: string, source: string)

  function TextOf(piece: Piece): string {
    match piece
    case Literal(c) => [c]
    case Variable(_, source) => source
  }

  function Join(pieces: seq<Piece>): string {
    if pieces == [] then "" else TextOf(pieces[0]) + Join(pieces[1..])
  }

  /** What stands at i: a placeholder if one starts there, otherwise one character of text. */
  function PieceAt(body: string, i: nat): Piece
    requires i < |body|
  {
    var m := ScanAt(body, i);
    if m.Some? then Variable(m.value.name, body[i..m.value.end]) else Literal(body[i])
  }

  function Next(body: string, i: nat): (j: nat)
    requires i < |body|
    ensures i < j <= |body|
  {
    var m := ScanAt(body, i);
    if m.Some? then m.value.end else i + 1
  }

  /** The body from i on: leftmost placeholders, without overlap, and the text between them. */
  function Pieces(body: string, i: nat): seq<Piece>
    requires i <= |body|
    decreases |body| - i
  {
    if i == |body| then [] else [PieceAt(body, i)] + Pieces(body, Next(body, i))
  }

  /** Reference: the piece is what the body has at i, a placeholder only where one matches and
      a literal only where none does. */
  ghost predicate Fits(body: string, i: nat, piece: Piece) {
    var j := i + |TextOf(piece)|;
    && i < j <= |body| && TextOf(piece) == body[i..j]
    && (piece.Variable? ==> MatchAt(body, i, j, piece.name))
    && (piece.Literal? ==> forall to, name :: !MatchAt(body, i, to, name))
  }

  /** Reference: the pieces, one after the other, fit the body from i to its end. */
  ghost predicate IsSplit(body: string, i: nat, pieces: seq<Piece>)
    decreases |pieces|
  {
    if pieces == [] then i == |body|
    else Fits(body, i, pieces[0]) && IsSplit(body, i + |TextOf(pieces[0])|, pieces[1..])
  }

  lemma PieceAtText(body: string, i: nat)
    requires i < |body|
    ensures TextOf(PieceAt(body, i)) == body[i..Next(body, i)]
  {
  }

  lemma PieceAtLength(body: string, i: nat)
    requires i < |body|
    ensures i + |TextOf(PieceAt(body, i))| == Next(body, i)
  {
  }

  lemma OnePieceFits(body: string, i: nat, piece: Piece)
    requires i < |body|
    ensures Fits(body, i, piece) <==> piece == PieceAt(body, i)
  {
    PieceAtText(body, i);
    if piece.Variable? {
      VariableFits(body, i, piece);
    } else {
      LiteralFits(body, i, piece);
    }
  }

  lemma VariableFits(body: string, i: nat, piece: Piece)
    requires i < |body| && piece.Variable?
    ensures Fits(body, i, piece) <==>
            ScanAt(body, i).Some? && piece == Variable(ScanAt(body, i).value.name, body[i..ScanAt(body, i).value.end])
  {
    ScanIsMatch(body, i, i + |piece.source|, piece.name);
  }

  lemma LiteralFits(body: string, i: nat, piece: Piece)
    requires i < |body| && piece.Literal?
    ensures Fits(body, i, piece) <==> ScanAt(body, i).None? && piece == Literal(body[i])
  {
    NoMatch(body, i);
    assert body[i..i + 1] == [body[i]];
  }

  lemma NoMatch(body: string, i: nat)
    ensures (forall to, name :: !MatchAt(body, i, to, name)) <==> ScanAt(body, i).None?
  {
    forall to, name ensures MatchAt(body, i, to, name) <==> ScanAt(body, i) == Some(Match(to, name)) {
      ScanIsMatch(body, i, to, name);
    }
    if ScanAt(body, i).Some? {
      ScanFindsMatch(body, i);
    }
  }

  lemma SplitStep(body: string, i: nat, pieces: seq<Piece>)
    requires i < |body| && pieces != []
    ensures IsSplit(body, i, pieces) <==>
              pieces[0] == PieceAt(body, i) && IsSplit(body, Next(body, i), pieces[1..])
  {
    var first, j := PieceAt(body, i), Next(body, i);
    assert i + |TextOf(first)| == j by {
      PieceAtLength(body, i);
    }
    assert Fits(body, i, pieces[0]) <==> pieces[0] == first by {
      OnePieceFits(body, i, pieces[0]);
    }
  }

  /** Every body has exactly one split, and the scanner computes it. */
  lemma {:induction false} SplitIsUnique(body: string, i: nat, pieces: seq<Piece>)
    requires i <= |body|
    ensures IsSplit(body, i, pieces) <==> pieces == Pieces(body, i)
    decreases |body| - i
  {
    if pieces != [] && i < |body| {
      SplitStep(body, i, pieces);
      ConsIff(pieces, PieceAt(body, i), Pieces(body, Next(body, i)));
      SplitIsUnique(body, Next(body, i), pieces[1..]);
    }
  }

  /** Literals and placeholders rejoin to the body. */
  lemma {:induction false} PiecesRejoin(body: string, i: nat)
    requires i <= |body|
    ensures Join(Pieces(body, i)) == body[i..|body|]
    decreases |body| - i
  {
    if i < |body| {
      PieceAtText(body, i);
      PiecesRejoin(body, Next(body, i));
      SliceSplit(body, i, Next(body, i), |body|);
    }
  }

  // ----- validation -----

  function NamesIn(pieces: seq<Piece>): set<string> {
    set piece | piece in pieces && piece.Variable? :: piece.name
  }

  function Used(body: string): set<string> {
    NamesIn(Pieces(body, 0))
  }

  /** A template value's two fields; NotText and NotNames stand for any other type, or for no body. */
  datatype Body = NotText | Text(text: string)
  datatype Declared = Undeclared | NotNames | Names(names: seq<string>)

  datatype Verdict = Accepted | BadBody | BadVariables | UnknownVariables(names: set<string>)

  function ValidateTemplate(body: Body, declared: Declared): Verdict {
    if body.NotText? || Blank(body.text) then BadBody
    else match declared
      case Undeclared => Accepted
      case NotNames => BadVariables
      case Names(names) =>
        var unknown := Used(body.text) - ToSet(names);
        if unknown != {} then UnknownVariables(unknown) else Accepted
  }

  // ----- rendering -----

  type Bag = map<string, string>

  datatype Rendered = Done(text: string) | Missing(names: set<string>)

  /** One pass: each placeholder becomes its value, or stays as it is. */
  function Filled(pieces: seq<Piece>, vars: Bag): string {
    if pieces == [] then "" else FilledPiece(pieces[0], vars) + Filled(pieces[1..], vars)
  }

  function FilledPiece(piece: Piece, vars: Bag): string {
    if piece.Variable? && piece.name in vars then vars[piece.name] else TextOf(piece)
  }

  /** What Render answers, as a function. */
  function Outcome(body: string, vars: Bag, strict: bool): Rendered {
    if strict && !(Used(body) <= vars.Keys) then Missing(Used(body) - vars.Keys)
    else Done(Filled(Pieces(body, 0), vars))
  }

  /** Rendering has come to position i. */
  ghost predicate Progress(body: string, i: nat, vars: Bag, strict: bool, text: string, missing: set<string>) {
    && i <= |body|
    && text + Filled(Pieces(body, i), vars) == Filled(Pieces(body, 0), vars)
    && (if strict then missing + (NamesIn(Pieces(body, i)) - vars.Keys) == Used(body) - vars.Keys else missing == {})
  }

  /** The substitution callback. */
  method Replace(name: string, source: string, vars: Bag, strict: bool, missing: set<string>)
      returns (text: string, missing': set<string>)
    ensures text == FilledPiece(Variable(name, source), vars)
    ensures missing' == if strict && name !in vars then missing + {name} else missing
  {
    if name in vars {
      return vars[name], missing;
    }
    if strict {
      return source, missing + {name};
    }
    return source, missing;
  }

  /** The match at i, replaced, or the character at i. */
  method RenderPiece(body: string, i: nat, vars: Bag, strict: bool, missing: set<string>)
      returns (text: string, missing': set<string>, j: nat)
    requires i < |body|
    ensures j == Next(body, i) && text == FilledPiece(PieceAt(body, i), vars)
    ensures var piece := PieceAt(body, i);
            missing' == if strict && piece.Variable? && piece.name !in vars then missing + {piece.name} else missing
  {
    var m := ScanAt(body, i);
    if m.Some? {
      text, missing' := Replace(m.value.name, body[i..m.value.end], vars, strict, missing);
      return text, missing', m.value.end;
    }
    return [body[i]], missing, i + 1;
  }

  method Render(body: string, vars: Bag, strict: bool) returns (r: Rendered)
    ensures r == Outcome(body, vars, strict)
  {
    var missing: set<string> := {};
    var text, i := "", 0;
    while i < |body|
      invariant Progress(body, i, vars, strict, text, missing)
      decreases |body| - i
    {
      ProgressStep(body, i, vars, strict, text, missing);
      var replaced, j;
      replaced, missing, j := RenderPiece(body, i, vars, strict, missing);
      text := text + replaced;
      i := j;
    }
    ProgressDone(body, vars, strict, text, missing);
    if strict && missing != {} {
      return Missing(missing);
    }
    return Done(text);
  }

  lemma ProgressDone(body: string, vars: Bag, strict: bool, text: string, missing: set<string>)
    requires Progress(body, |body|, vars, strict, text, missing)
    ensures Outcome(body, vars, strict) == if strict && missing != {} then Missing(missing) else Done(text)
  {
    assert Pieces(body, |body|) == [] && NamesIn([]) == {};
    DifferenceIsEmpty(Used(body), vars.Keys);
  }

  lemma ProgressStep(body: string, i: nat, vars: Bag, strict: bool, text: string, missing: set<string>)
    requires i < |body| && Progress(body, i, vars, strict, text, missing)
    ensures var piece := PieceAt(body, i);
            var unknown := strict && piece.Variable? && piece.name !in vars;
            Progress(body, Next(body, i), vars, strict, text + FilledPiece(piece, vars),
                     if unknown then missing + {piece.name} else missing)
  {
    PiecesStep(body, i, vars);
    var piece, rest := PieceAt(body, i), Pieces(body, Next(body, i));
    Reassociate(text, FilledPiece(piece, vars), Filled(rest, vars));
    if piece.Variable? {
      MissingStep(missing, NamesIn(rest), piece.name, vars.Keys);
    }
  }

  lemma MissingStep(missing: set<string>, rest: set<string>, name: string, known: set<string>)
    ensures missing + (rest + {name} - known) ==
            (if name in known then missing else missing + {name}) + (rest - known)
  {
  }

  lemma PiecesStep(body: string, i: nat, vars: Bag)
    requires i < |body|
    ensures var piece, rest := PieceAt(body, i), Pieces(body, Next(body, i));
            && Filled(Pieces(body, i), vars) == FilledPiece(piece, vars) + Filled(rest, vars)
            && NamesIn(Pieces(body, i)) == NamesIn(rest) + if piece.Variable? then {piece.name} else {}
  {
    NamesInCons(Pieces(body, i));
  }

  lemma NamesInCons(pieces: seq<Piece>)
    ensures pieces != [] ==>
              NamesIn(pieces) == NamesIn(pieces[1..]) + if pieces[0].Variable? then {pieces[0].name} else {}
  {
    if pieces != [] {
      assert pieces == [pieces[0]] + pieces[1..];
    }
  }

  lemma {:induction false} FilledAround(before: seq<Piece>, piece: Piece, after: seq<Piece>, vars: Bag)
    ensures Filled(before + [piece] + after, vars) ==
            Filled(before, vars) + FilledPiece(piece, vars) + Filled(after, vars)
  {
    var all := before + [piece] + after;
    if before == [] {
      assert all[0] == piece && all[1..] == after;
    } else {
      assert all[0] == before[0] && all[1..] == before[1..] + [piece] + after;
      FilledAround(before[1..], piece, after, vars);
      Reassociate(FilledPiece(before[0], vars), Filled(before[1..], vars), FilledPiece(piece, vars));
    }
  }

  /** Piece by piece: text stays, a supplied name becomes its value as it is, never rescanned, and
      any other placeholder keeps its source. */
  lemma RenderedPiecewise(before: seq<Piece>, piece: Piece, after: seq<Piece>, vars: Bag)
    ensures Filled([], vars) == ""
    ensures Filled(before + [piece] + after, vars) ==
            Filled(before, vars) +
            (if piece.Literal? then [piece.c] else if piece.name in vars then vars[piece.name] else piece.source) +
            Filled(after, vars)
  {
    FilledAround(before, piece, after, vars);
  }

  /** So does the answer of Render, for every split of the body into text and leftmost placeholders. */
  lemma RendersEveryPiece(body: string, before: seq<Piece>, piece: Piece, after: seq<Piece>, vars: Bag, strict: bool)
    requires IsSplit(body, 0, before + [piece] + after) && Outcome(body, vars, strict).Done?
    ensures Outcome(body, vars, strict).text ==
            Filled(before, vars) +
            (if piece.Literal? then [piece.c] else if piece.name in vars then vars[piece.name] else piece.source) +
            Filled(after, vars)
  {
    SplitIsUnique(body, 0, before + [piece] + after);
    RenderedPiecewise(before, piece, after, vars);
  }

  /** Some placeholder of the pieces has this name. */
  ghost predicate HasName(pieces: seq<Piece>, name: string) {
    exists k :: 0 <= k < |pieces| && pieces[k].Variable? && pieces[k].name == name
  }

  /** Rendering fails exactly in strict mode with a placeholder whose name is not supplied, and
      reports exactly those names. */
  lemma FailsExactly(body: string, pieces: seq<Piece>, vars: Bag, strict: bool)
    requires IsSplit(body, 0, pieces)
    ensures Outcome(body, vars, strict).Missing? <==> strict && exists name :: HasName(pieces, name) && name !in vars
    ensures Outcome(body, vars, strict).Missing? ==>
              forall name :: name in Outcome(body, vars, strict).names <==> HasName(pieces, name) && name !in vars
  {
    SplitIsUnique(body, 0, pieces);
    UsedExactly(body, pieces);
    DifferenceIsEmpty(Used(body), vars.Keys);
  }

  lemma UsedExactly(body: string, pieces: seq<Piece>)
    requires IsSplit(body, 0, pieces)
    ensures forall name :: name in Used(body) <==> HasName(pieces, name)
  {
    SplitIsUnique(body, 0, pieces);
  }

  /** What validation accepts and what it refuses a template for. */
  lemma ValidatesByPieces(text: string, declared: Declared, pieces: seq<Piece>)
    requires IsSplit(text, 0, pieces)
    ensures ValidateTemplate(NotText, declared) == BadBody
    ensures var verdict := ValidateTemplate(Text(text), declared);
            && (verdict.BadBody? <==> Blank(text))
            && (verdict.BadVariables? <==> !Blank(text) && declared.NotNames?)
            && (verdict.UnknownVariables? <==> !Blank(text) && declared.Names? && HasUndeclared(pieces, declared.names))
            && (verdict.UnknownVariables? ==>
                  forall name :: name in verdict.names <==> HasName(pieces, name) && name !in declared.names)
  {
    UsedExactly(text, pieces);
    if declared.Names? {
      DifferenceIsEmpty(Used(text), ToSet(declared.names));
    }
  }

  /** Some placeholder is not declared. */
  ghost predicate HasUndeclared(pieces: seq<Piece>, names: seq<string>) {
    exists name :: HasName(pieces, name) && name !in names
  }

  /**
   Template soundness, exactly: validation accepts declared variables iff strict rendering
   succeeds for every caller that supplies them all.
   */
  lemma ValidationIsExact(text: string, names: seq<string>)
    requires !Blank(text)
    ensures ValidateTemplate(Text(text), Names(names)).Accepted? <==>
            forall vars: Bag :: ToSet(names) <= vars.Keys ==> Outcome(text, vars, true).Done?
  {
    if ValidateTemplate(Text(text), Names(names)).Accepted? {
      DifferenceIsEmpty(Used(text), ToSet(names));
    } else {
      var vars: Bag := map name | name in ToSet(names) :: "";
      assert !Outcome(text, vars, true).Done?;
    }
  }

  /** A body without placeholders renders to itself, and so does any body with no value supplied. */
  lemma {:induction false} UnfilledIsUnchanged(pieces: seq<Piece>, vars: Bag)
    requires NamesIn(pieces) !! vars.Keys
    ensures Filled(pieces, vars) == Join(pieces)
  {
    if pieces != [] {
      NamesInCons(pieces);
      UnfilledIsUnchanged(pieces[1..], vars);
    }
  }

  lemma LenientRenderKeepsText(body: string, vars: Bag)
    requires Used(body) !! vars.Keys
    ensures Outcome(body, vars, false) == Done(body)
  {
    UnfilledIsUnchanged(Pieces(body, 0), vars);
    PiecesRejoin(body, 0);
  }

  // ----- locale fallback and subject -----

  datatype Template = Template(body: string, subject: string)   // an empty subject is no subject

  datatype Message = NotFound | Incomplete(names: set<string>) | Message(body: string, subject: Option<string>)

  method RenderWithSubject(templates: map<(string, Locale), Template>, key: string, vars: Bag,
                           locale: Option<Locale>, fallback: Locale, strict: bool) returns (r: Message)
    ensures var requested := (key, if locale.Some? then locale.value else fallback);
            var found := if requested in templates then Some(templates[requested])
                         else if (key, fallback) in templates then Some(templates[(key, fallback)])
                         else None;
            && (r.NotFound? <==> found.None?)
            && (r.Incomplete? <==> found.Some? && strict && !(Used(found.value.body) <= vars.Keys))
            && (r.Incomplete? ==> r.names == Used(found.value.body) - vars.Keys)
            && (r.Message? ==>
                  && r.body == Filled(Pieces(found.value.body, 0), vars)
                  && r.subject == (if found.value.subject == "" then None
                                   else Some(Filled(Pieces(found.value.subject, 0), vars))))
  {
    var requested := if locale.Some? then locale.value else fallback;
    var template: Option<Template> := None;
    if (key, requested) in templates {
      template := Some(templates[(key, requested)]);
    }
    if template.None? && requested != fallback && (key, fallback) in templates {
      template := Some(templates[(key, fallback)]);
    }
    if template.None? {
      return NotFound;
    }
    var body := Render(template.value.body, vars, strict);
    if body.Missing? {
      return Incomplete(body.names);
    }
    if template.value.subject == "" {
      return Message(body.text, None);
    }
    var subject := Render(template.value.subject, vars, false);
    return Message(body.text, Some(subject.text));
  }
}
