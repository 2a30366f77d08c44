/**
 Reading condition expressions as they are written by hand: what any list of terms, joined by "&" and
 with white space anywhere around their parts, is parsed into.
 */
module ConditionReading {
  import opened Text
  import opened Wrappers
  import opened ConditionExpression
  import opened ConditionRoundTrip

  // ------------------------------------------------------------------------- terms

  /** What a condition is about: an argument of the call, or an attribute by name. */
  datatype Subject = Argument(index: string) | Attribute(name: string)

  /** One term of an expression. `g` and `h` are white space on either side of the sign. */
  datatype Term =
    | MethodIs(h: string, name: string)
    | Compare(subject: Subject, g: string, sign: string, h: string, value: string)
    | Words(text: string)

  function SubjectText(s: Subject): string
  {
    match s
    case Argument(index) => "arguments[" + index + "]"
    case Attribute(name) => name
  }

  function TermText(t: Term): string
  {
    match t
    case MethodIs(h, name) => "method=" + (h + name)
    case Compare(subject, g, sign, h, value) => SubjectText(subject) + g + sign + (h + value)
    case Words(text) => text
  }

  /** The brackets make an argument; any other text is a name. */
  ghost predicate SubjectOk(s: Subject)
  {
    s.Attribute? ==> forall i :: s.name != "arguments[" + i + "]"
  }

  /** The sign is the first in the text: "!=" wins over "=", and must not come about by accident. */
  predicate SignOk(left: string, sign: string, right: string)
  {
    && Separated(left, sign, right)
    && (sign == EQUAL ==> left == [] || left[|left| - 1] != '!')
  }

  /** A comparison that can be read off its text, without a separator in it. */
  ghost predicate CompareOk(t: Term)
    requires t.Compare?
  {
    var left := SubjectText(t.subject);
    && SubjectOk(t.subject) && Trimmed(left) && Trimmed(t.value) && Blank(t.g) && Blank(t.h)
    && SignOk(left + t.g, t.sign, t.h + t.value)
    && Free(TermText(t)) && Trimmed(TermText(t))
  }

  /** A term of the part before the arrow: a comparison is not taken for the method. */
  ghost predicate TermOk(t: Term)
  {
    match t
    case MethodIs(h, name) => Blank(h) && Trimmed(name) && Free(TermText(t)) && Trimmed(TermText(t))
    case Compare(_, _, _, _, _) => CompareOk(t) && !("method=" <= TermText(t))
    case Words(text) => Trimmed(text) && Free(text) && !Contains(text, EQUAL)
  }

  /** A term of the part behind the arrow, where the method is an attribute like any other. */
  ghost predicate TargetOk(t: Term)
  {
    match t
    case MethodIs(_, _) => false
    case Compare(_, _, _, _, _) => CompareOk(t)
    case Words(text) => Trimmed(text) && Free(text) && !Contains(text, EQUAL)
  }

  // -------------------------------------------------------------- what the terms say

  function NameOf(s: Subject): string
  {
    match s
    case Argument(index) => index
    case Attribute(name) => name
  }

  /** A comparison is a condition on its subject, unless the subject is empty. */
  function RouteOf(t: Term): seq<RouteCondition>
  {
    if t.Compare? && NameOf(t.subject) != "" then [RouteCondition(NameOf(t.subject), t.sign, t.value)] else []
  }

  /** Behind the arrow the subject stands as it is written. */
  function TargetOf(t: Term): seq<DestinationCondition>
  {
    if t.Compare? && SubjectText(t.subject) != ""
    then [DestinationCondition(t.sign, SubjectText(t.subject), t.value)] else []
  }

  function RoutesOf(ts: seq<Term>): seq<RouteCondition>
  {
    if ts == [] then [] else RouteOf(ts[0]) + RoutesOf(ts[1..])
  }

  function TargetsOf(ts: seq<Term>): seq<DestinationCondition>
  {
    if ts == [] then [] else TargetOf(ts[0]) + TargetsOf(ts[1..])
  }

  /** The last method named, or the one known before. */
  function MethodOf(ts: seq<Term>, m: string): string
  {
    if ts == [] then m else MethodOf(ts[1..], if ts[0].MethodIs? then ts[0].name else m)
  }

  // ------------------------------------------------------------------ reading one term

  lemma SubjectReads(s: Subject)
    requires SubjectOk(s)
    ensures IndexOf(SubjectText(s)) == NameOf(s)
  {
    var left := SubjectText(s);
    if s.Argument? {
      assert left[10..|left| - 1] == s.index;
    } else if ARGUMENTS <= left && left[|left| - 1] == ']' {
      assert left == "arguments[" + left[10..|left| - 1] + "]";
    }
  }

  lemma SignIndex(left: string, sign: string, right: string)
    requires SignOk(left, sign, right)
    ensures Index(left + sign + right, sign) == |left|
    ensures sign == EQUAL ==> !Contains(left + sign + right, NOT_EQUAL)
  {
    FirstSign(left, sign, right);
    if sign == EQUAL {
      EqualIsNoNotEqual(left, right);
    }
  }

  /** White space around the sign is not part of either side. */
  lemma HalvesRead(left: string, g: string, sign: string, h: string, right: string)
    requires Trimmed(left) && Trimmed(right) && Blank(g) && Blank(h) && SignOk(left + g, sign, h + right)
    ensures HalvesOf(left + g + sign + (h + right)) == Some(Halves(left, sign, right))
  {
    var text := left + g + sign + (h + right);
    SignIndex(left + g, sign, h + right);
    AroundSign(left + g, sign, h + right);
    TrimPadRight(left, g);
    TrimIs(left);
    TrimPadLeft(h, right);
    TrimIs(right);
    assert SplitAt(text, sign) == Halves(left, sign, right);
  }

  lemma CompareReads(t: Term)
    requires t.Compare? && CompareOk(t)
    ensures RouteIn(TermText(t)) == RouteOf(t) && ConditionIn(TermText(t)) == TargetOf(t)
  {
    HalvesRead(SubjectText(t.subject), t.g, t.sign, t.h, t.value);
    SubjectReads(t.subject);
  }

  lemma WordsRead(text: string)
    requires !Contains(text, EQUAL)
    ensures RouteIn(text) == [] && ConditionIn(text) == [] && !(METHOD <= text)
  {
    if Contains(text, NOT_EQUAL) {
      var i := Index(text, NOT_EQUAL);
      assert text[i + 1] == NOT_EQUAL[1] == '=';
      assert MatchAt(text, EQUAL, i + 1);
      IndexFirst(text, EQUAL, i + 1);
    }
    if METHOD <= text {
      assert text[6] == METHOD[6] == '=';
      assert MatchAt(text, EQUAL, 6);
      IndexFirst(text, EQUAL, 6);
    }
  }

  /** A term as it stands between two separators. */
  datatype Piece = Piece(before: string, term: Term, after: string)

  function PieceText(p: Piece): string
  {
    p.before + (TermText(p.term) + p.after)
  }

  ghost predicate PieceOk(p: Piece)
  {
    Blank(p.before) && Blank(p.after) && TermOk(p.term)
  }

  ghost predicate TargetPieceOk(p: Piece)
  {
    Blank(p.before) && Blank(p.after) && TargetOk(p.term)
  }

  lemma PieceTrims(p: Piece)
    requires Blank(p.before) && Blank(p.after) && Trimmed(TermText(p.term))
    ensures Trim(PieceText(p)) == TermText(p.term)
  {
    TrimPadLeft(p.before, TermText(p.term) + p.after);
    TrimPadRight(TermText(p.term), p.after);
    TrimIs(TermText(p.term));
  }

  lemma PieceReads(p: Piece)
    requires PieceOk(p)
    ensures ReadPiece(PieceText(p))
         == if p.term.MethodIs? then Method(p.term.name) else Conditions(RouteOf(p.term))
  {
    var t := p.term;
    PieceTrims(p);
    match t
    case MethodIs(h, name) =>
      assert TermText(t)[7..] == h + name;
      TrimPadLeft(h, name);
      TrimIs(name);
    case Compare(_, _, _, _, _) => CompareReads(t);
    case Words(text) => WordsRead(text);
  }

  lemma TargetPieceReads(p: Piece)
    requires TargetPieceOk(p)
    ensures ReadCondition(PieceText(p)) == TargetOf(p.term)
  {
    PieceTrims(p);
    if p.term.Compare? {
      CompareReads(p.term);
    } else {
      WordsRead(p.term.text);
    }
  }

  lemma BlankIsFree(pad: string)
    requires Blank(pad)
    ensures Free(pad)
  {
    NoFirstChar(pad, AND);
    NoFirstChar(pad, ARROW);
  }

  lemma PaddedFree(before: string, text: string, after: string)
    requires Blank(before) && Blank(after) && Free(text)
    ensures Free(before + (text + after))
  {
    BlankIsFree(before);
    BlankIsFree(after);
    OneCharJoint(text, after, AND);
    JoinWithout(text, after, AND);
    TwoCharJoint(text, after, ARROW);
    JoinWithout(text, after, ARROW);
    OneCharJoint(before, text + after, AND);
    JoinWithout(before, text + after, AND);
    TwoCharJoint(before, text + after, ARROW);
    JoinWithout(before, text + after, ARROW);
  }

  lemma PieceFree(p: Piece)
    requires PieceOk(p) || TargetPieceOk(p)
    ensures Free(PieceText(p))
  {
    PaddedFree(p.before, TermText(p.term), p.after);
  }

  // ------------------------------------------------------------------ reading a list

  /** The pieces with "&" between them. */
  function Joined(ps: seq<Piece>): string
    requires ps != []
  {
    if |ps| == 1 then PieceText(ps[0]) else PieceText(ps[0]) + "&" + Joined(ps[1..])
  }

  function TermsOf(ps: seq<Piece>): seq<Term>
  {
    if ps == [] then [] else [ps[0].term] + TermsOf(ps[1..])
  }

  ghost predicate AllPiecesOk(ps: seq<Piece>)
  {
    forall i :: 0 <= i < |ps| ==> PieceOk(ps[i])
  }

  ghost predicate AllTargetsOk(ps: seq<Piece>)
  {
    forall i :: 0 <= i < |ps| ==> TargetPieceOk(ps[i])
  }

  lemma SplitJoined(ps: seq<Piece>)
    requires ps != [] && Free(PieceText(ps[0]))
    ensures Split(Joined(ps), AND) == [PieceText(ps[0])] + if |ps| == 1 then [] else Split(Joined(ps[1..]), AND)
  {
    if |ps| > 1 {
      OneCharJoint(PieceText(ps[0]), AND + Joined(ps[1..]), AND);
      SplitFirst(PieceText(ps[0]), AND, Joined(ps[1..]));
    }
  }

  lemma NothingReads(m: string)
    ensures From([], m) == (m, []) && To([]) == []
  {
  }

  function MethodAfter(t: Term, m: string): string
  {
    if t.MethodIs? then t.name else m
  }

  lemma PieceFront(p: Piece, parts: seq<string>, m: string)
    requires PieceOk(p)
    ensures var rest := From(parts, MethodAfter(p.term, m));
            From([PieceText(p)] + parts, m) == (rest.0, RouteOf(p.term) + rest.1)
  {
    PieceReads(p);
    FromFront(PieceText(p), parts, m);
    if p.term.MethodIs? {
      var rest := From(parts, p.term.name);
      assert [] + rest.1 == rest.1;
    }
  }

  lemma TermsFront(ps: seq<Piece>, m: string)
    requires ps != []
    ensures MethodOf(TermsOf(ps), m) == MethodOf(TermsOf(ps[1..]), MethodAfter(ps[0].term, m))
    ensures RoutesOf(TermsOf(ps)) == RouteOf(ps[0].term) + RoutesOf(TermsOf(ps[1..]))
  {
    var ts := TermsOf(ps);
    assert ts[0] == ps[0].term && ts[1..] == TermsOf(ps[1..]);
  }

  /** Any list of terms before the arrow gives its last method and its conditions in order. */
  lemma {:induction false} FromReads(ps: seq<Piece>, m: string)
    requires ps != [] && AllPiecesOk(ps)
    ensures From(Split(Joined(ps), AND), m) == (MethodOf(TermsOf(ps), m), RoutesOf(TermsOf(ps)))
    decreases |ps|
  {
    var p, rest := ps[0], ps[1..];
    PieceFree(p);
    SplitJoined(ps);
    TermsFront(ps, m);
    if rest == [] {
      NothingReads(MethodAfter(p.term, m));
      PieceFront(p, [], m);
    } else {
      FromReads(rest, MethodAfter(p.term, m));
      PieceFront(p, Split(Joined(rest), AND), m);
    }
  }

  /** Any list of terms behind the arrow gives its conditions in order. */
  lemma {:induction false} ToReads(ps: seq<Piece>)
    requires ps != [] && AllTargetsOk(ps)
    ensures To(Split(Joined(ps), AND)) == TargetsOf(TermsOf(ps))
    decreases |ps|
  {
    var p, rest, ts := ps[0], ps[1..], TermsOf(ps);
    PieceFree(p);
    TargetPieceReads(p);
    SplitJoined(ps);
    assert ts[0] == p.term && ts[1..] == TermsOf(rest);
    if rest == [] {
      NothingReads("");
      ToFront(PieceText(p), []);
    } else {
      ToReads(rest);
      ToFront(PieceText(p), Split(Joined(rest), AND));
    }
  }

  lemma {:induction false} JoinedNoArrow(ps: seq<Piece>)
    requires ps != [] && forall i :: 0 <= i < |ps| ==> Free(PieceText(ps[i]))
    ensures !Contains(Joined(ps), ARROW)
    decreases |ps|
  {
    if |ps| > 1 {
      var first, rest := PieceText(ps[0]), Joined(ps[1..]);
      JoinedNoArrow(ps[1..]);
      NoFirstChar(AND, ARROW);
      TwoCharJoint(first, AND, ARROW);
      JoinWithout(first, AND, ARROW);
      TwoCharJoint(first + AND, rest, ARROW);
      JoinWithout(first + AND, rest, ARROW);
    }
  }

  // ------------------------------------------------------------- reading an expression

  /** What an expression of these terms means. */
  function Meaning(fs: seq<Piece>, targets: seq<Destination>): ServiceArgument
  {
    ServiceArgument(RoutesOf(TermsOf(fs)), targets, MethodOf(TermsOf(fs), ""))
  }

  lemma AllFreeText(ps: seq<Piece>)
    requires AllPiecesOk(ps) || AllTargetsOk(ps)
    ensures forall i :: 0 <= i < |ps| ==> Free(PieceText(ps[i]))
  {
    forall i | 0 <= i < |ps| ensures Free(PieceText(ps[i])) {
      PieceFree(ps[i]);
    }
  }

  /** An expression without an arrow has no destination. */
  lemma RouteReads(fs: seq<Piece>)
    requires fs != [] && AllPiecesOk(fs)
    ensures Parse(Joined(fs)) == Meaning(fs, [])
  {
    AllFreeText(fs);
    JoinedNoArrow(fs);
    TrimReadsAlike(Joined(fs), "");
    FromReads(fs, "");
  }

  lemma SplitAtArrow(a: string, b: string)
    requires !Contains(a, ARROW)
    ensures Split(a + ARROW + b, ARROW) == [a] + Split(b, ARROW)
  {
    TwoCharJoint(a, ARROW + b, ARROW);
    SplitFirst(a, ARROW, b);
  }

  lemma {:induction false} BlankTrims(s: string)
    ensures Trim(s) == "" <==> Blank(s)
  {
    if Blank(s) {
      TrimLeftBlank(s);
    } else {
      var before, after := TrimParts(s);
    }
  }

  lemma TargetReads(ps: seq<Piece>)
    requires ps != [] && AllTargetsOk(ps)
    ensures DestinationsOf(Trim(Joined(ps)))
         == if Blank(Joined(ps)) then [] else [Destination(TargetsOf(TermsOf(ps)), 0)]
  {
    BlankTrims(Joined(ps));
    TrimReadsAlike(Joined(ps), "");
    ToReads(ps);
  }

  /** Any expression of terms: the method, the conditions and one destination, each in the order it is
      written; whatever follows a second arrow is ignored. */
  lemma ExpressionReads(fs: seq<Piece>, ts: seq<Piece>, more: string)
    requires fs != [] && AllPiecesOk(fs) && ts != [] && AllTargetsOk(ts)
    ensures var targets := if Blank(Joined(ts)) then [] else [Destination(TargetsOf(TermsOf(ts)), 0)];
            && Parse(Joined(fs) + "=>" + Joined(ts)) == Meaning(fs, targets)
            && Parse(Joined(fs) + "=>" + (Joined(ts) + "=>" + more)) == Meaning(fs, targets)
  {
    var f, t := Joined(fs), Joined(ts);
    AllFreeText(fs);
    AllFreeText(ts);
    JoinedNoArrow(fs);
    JoinedNoArrow(ts);
    SplitAtArrow(f, t);
    SplitAtArrow(f, t + ARROW + more);
    SplitAtArrow(t, more);
    assert Split(t, ARROW) == [t];
    TrimReadsAlike(f, "");
    FromReads(fs, "");
    TargetReads(ts);
  }

  // ------------------------------------------------------ every text is such a list

  /** Every left side is an argument or a name. */
  lemma SomeSubject(left: string) returns (s: Subject)
    ensures SubjectText(s) == left && SubjectOk(s)
  {
    if i :| left == "arguments[" + i + "]" {
      s := Argument(i);
    } else {
      s := Attribute(left);
    }
  }

  lemma SignStands(text: string, sign: string)
    requires Contains(text, sign)
    ensures var i := Index(text, sign); text == text[..i] + sign + text[i + |sign|..]
  {
    var i := Index(text, sign);
    assert text[i..i + |sign|] == sign;
  }

  lemma NoPadLeft(pad: string, s: string)
    ensures Blank(pad) && Trimmed(pad + s) ==> pad == []
  {
    if pad != [] {
      assert (pad + s)[0] == pad[0];
    }
  }

  lemma NoPadRight(s: string, pad: string)
    ensures Blank(pad) && Trimmed(s + pad) ==> pad == []
  {
    if pad != [] {
      assert (s + pad)[|s + pad| - 1] == pad[|pad| - 1];
    }
  }

  /** At the ends of a trimmed text no white space is left over. */
  lemma LeftSpace(l: string, rest: string) returns (a: string, g: string)
    requires Trimmed(l + rest)
    ensures Blank(g) && l == a + g && Trimmed(a)
  {
    var g0;
    g0, g := TrimParts(l);
    a := Trim(l);
    Associative(g0, a + g, rest);
    NoPadLeft(g0, a + g + rest);
  }

  lemma RightSpace(first: string, r: string) returns (h: string, b: string)
    requires Trimmed(first + r)
    ensures Blank(h) && r == h + b && Trimmed(b)
  {
    var h0;
    h, h0 := TrimParts(r);
    b := Trim(r);
    Associative(h, b, h0);
    Associative(first, h + b, h0);
    NoPadRight(first + (h + b), h0);
  }

  /** The sides of a sign in a trimmed text, each without the white space next to it. */
  lemma Sides(l: string, sign: string, r: string) returns (a: string, g: string, h: string, b: string)
    requires Trimmed(l + sign + r)
    ensures Blank(g) && Blank(h) && Trimmed(a) && Trimmed(b) && l == a + g && r == h + b
  {
    Associative(l, sign, r);
    a, g := LeftSpace(l, sign + r);
    h, b := RightSpace(l + sign, r);
  }

  /** A trimmed text with a sign in it is a comparison. */
  lemma SomeCompare(text: string) returns (t: Term)
    requires Trimmed(text) && Free(text) && HalvesOf(text).Some?
    ensures t.Compare? && CompareOk(t) && TermText(t) == text
  {
    var sign := if Contains(text, NOT_EQUAL) then NOT_EQUAL else EQUAL;
    var i := Index(text, sign);
    SignStands(text, sign);
    SignReadOff(text, text[..i], sign, text[i + |sign|..]);
    var a, g, h, b := Sides(text[..i], sign, text[i + |sign|..]);
    var subject := SomeSubject(a);
    t := Compare(subject, g, sign, h, b);
  }

  lemma PartsWithout(l: string, r: string, pat: string)
    requires !Contains(l + EQUAL + r, pat)
    ensures !Contains(l, pat) && !Contains(r, pat)
  {
    var text := l + EQUAL + r;
    AroundSign(l, EQUAL, r);
    WithinPrefix(text, |l|);
    WithinContains(l, text, pat);
    WithinSuffix(text, |l| + 1);
    WithinContains(r, text, pat);
  }

  lemma NoBang(l: string, r: string)
    requires !Contains(l + EQUAL + r, NOT_EQUAL)
    ensures l == [] || l[|l| - 1] != '!'
  {
    var text := l + EQUAL + r;
    if l != [] {
      IndexFirst(text, NOT_EQUAL, |l| - 1);
      assert text[|l| - 1] == l[|l| - 1] && text[|l|] == '=';
    }
  }

  lemma SignReadOff(text: string, l: string, sign: string, r: string)
    requires text == l + sign + r && sign == (if Contains(text, NOT_EQUAL) then NOT_EQUAL else EQUAL)
    requires Contains(text, sign) && |l| == Index(text, sign)
    ensures SignOk(l, sign, r)
  {
    BeforeFirst(text, sign);
    AroundSign(l, sign, r);
    if sign == EQUAL {
      PartsWithout(l, r, NOT_EQUAL);
      NoBang(l, r);
    }
  }

  lemma SomeMethod(text: string) returns (t: Term)
    requires Trimmed(text) && Free(text) && METHOD <= text
    ensures t.MethodIs? && TermOk(t) && TermText(t) == text
  {
    var rest := text[7..];
    var h, h0 := TrimParts(rest);
    assert text == METHOD + h + Trim(rest) + h0;
    NoPadRight(METHOD + h + Trim(rest), h0);
    t := MethodIs(h, Trim(rest));
    assert text == METHOD + (h + Trim(rest));
  }

  lemma NoHalves(text: string)
    requires HalvesOf(text).None?
    ensures !Contains(text, EQUAL)
  {
  }

  /** Every stretch without a separator is a piece, before and behind the arrow. */
  lemma SomePiece(text: string) returns (p: Piece, q: Piece)
    requires Free(text)
    ensures PieceOk(p) && PieceText(p) == text
    ensures TargetPieceOk(q) && PieceText(q) == text
  {
    var before, after := TrimParts(text);
    var core := Trim(text);
    TrimFree(text);
    var target: Term := Words(core);
    if HalvesOf(core).Some? {
      target := SomeCompare(core);
    } else {
      NoHalves(core);
    }
    q := Piece(before, target, after);
    if METHOD <= core {
      var t := SomeMethod(core);
      p := Piece(before, t, after);
    } else {
      p := q;
    }
  }

  /** Every text without an arrow is a list of pieces, so the lemmas above say how it is read. */
  lemma {:induction false} SomePieces(text: string) returns (ps: seq<Piece>, qs: seq<Piece>)
    requires !Contains(text, ARROW)
    ensures ps != [] && AllPiecesOk(ps) && Joined(ps) == text
    ensures qs != [] && AllTargetsOk(qs) && Joined(qs) == text
    decreases |text|
  {
    if !Contains(text, AND) {
      var p, q := SomePiece(text);
      ps, qs := [p], [q];
    } else {
      var i := Index(text, AND);
      AroundAnd(text);
      var p, q := SomePiece(text[..i]);
      var ps', qs' := SomePieces(text[i + 1..]);
      ps, qs := [p] + ps', [q] + qs';
      assert ps[1..] == ps' && qs[1..] == qs';
    }
  }

  /** Both sides of the first "&" are free of arrows, and the left one of separators. */
  lemma AroundAnd(text: string)
    requires !Contains(text, ARROW) && Contains(text, AND)
    ensures var i := Index(text, AND);
            && text == text[..i] + "&" + text[i + 1..] && Free(text[..i]) && !Contains(text[i + 1..], ARROW)
  {
    var i := Index(text, AND);
    SignStands(text, AND);
    BeforeFirst(text, AND);
    WithinPrefix(text, i);
    WithinContains(text[..i], text, ARROW);
    WithinSuffix(text, i + 1);
    WithinContains(text[i + 1..], text, ARROW);
  }

  /** What follows an arrow is a list of pieces, up to the next arrow. */
  lemma SomeTargets(text: string) returns (ts: seq<Piece>, more: string)
    ensures ts != [] && AllTargetsOk(ts)
    ensures text == Joined(ts) || text == Joined(ts) + "=>" + more
  {
    var ps;
    var j := Index(text, ARROW);
    more := "";
    if j == -1 {
      ps, ts := SomePieces(text);
    } else {
      SignStands(text, ARROW);
      BeforeFirst(text, ARROW);
      ps, ts := SomePieces(text[..j]);
      more := text[j + 2..];
    }
  }

  /** So every expression is read as the terms it is made of, whatever the text. */
  lemma EveryTextReads(text: string) returns (fs: seq<Piece>, ts: seq<Piece>)
    ensures fs != [] && AllPiecesOk(fs) && AllTargetsOk(ts)
    ensures if ts == [] then text == Joined(fs) && Parse(text) == Meaning(fs, [])
            else && Joined(fs) + "=>" + Joined(ts) <= text
                 && Parse(text)
                    == Meaning(fs, if Blank(Joined(ts)) then [] else [Destination(TargetsOf(TermsOf(ts)), 0)])
  {
    var i := Index(text, ARROW);
    var qs;
    if i == -1 {
      fs, qs := SomePieces(text);
      ts := [];
      RouteReads(fs);
    } else {
      SignStands(text, ARROW);
      BeforeFirst(text, ARROW);
      fs, qs := SomePieces(text[..i]);
      var more;
      ts, more := SomeTargets(text[i + 2..]);
      ExpressionReads(fs, ts, more);
      PrefixKept(Joined(fs) + ARROW, Joined(ts), ARROW + more);
      Associative(Joined(ts), ARROW, more);
    }
  }

  lemma PrefixKept(a: string, b: string, c: string)
    ensures a + b <= a + b && a + b <= a + (b + c)
  {
  }
}
