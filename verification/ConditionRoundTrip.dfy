/** Exactly which service arguments survive being written and read back. */
module ConditionRoundTrip {
  import opened ConditionExpression
  import opened Text
  import opened Wrappers

  // -------------------------------------------------------------- cutting at arrows

  /** The text before the first arrow. */
  function Cut(s: string): string
  {
    var i := Index(s, ARROW);
    if i == -1 then s else s[..i]
  }

  predicate NoArrowAcross(a: string, b: string)
  {
    a == [] || b == [] || a[|a| - 1] != '=' || b[0] != '>'
  }

  lemma CutAppend(a: string, b: string)
    requires !Contains(a, ARROW) && NoArrowAcross(a, b)
    ensures Cut(a + b) == a + Cut(b)
  {
    TwoCharJoint(a, b, ARROW);
    IndexAppend(a, b, ARROW);
  }

  lemma CutAtArrow(u: string, rest: string)
    requires !Contains(u, ARROW)
    ensures Cut(u + (ARROW + rest)) == u
  {
    var b := ARROW + rest;
    IndexIs(b, ARROW, 0);
    CutAppend(u, b);
    assert Cut(b) == [];
  }

  predicate Sharp(s: string)
  {
    s != [] && s[0] == '>'
  }

  // -------------------------------------------------------- one condition's text

  lemma AroundSign(left: string, sign: string, right: string)
    ensures var t := left + sign + right; t[..|left|] == left && t[|left| + |sign|..] == right
  {
  }

  /** A condition falls into its halves when its first sign is the one between them. */
  lemma SplitAtSign(left: string, sign: string, right: string)
    requires Trimmed(left) && Trimmed(right) && Index(left + sign + right, sign) == |left|
    ensures SplitAt(left + sign + right, sign) == Halves(left, sign, right)
  {
    AroundSign(left, sign, right);
    TrimIs(left);
    TrimIs(right);
  }

  lemma FirstSign(left: string, sign: string, right: string)
    requires (sign == EQUAL || sign == NOT_EQUAL) && !Contains(left, sign)
    ensures Index(left + sign + right, sign) == |left|
  {
    var b := sign + right;
    IndexIs(b, sign, 0);
    if sign == EQUAL {
      OneCharJoint(left, b, sign);
    } else {
      TwoCharJoint(left, b, sign);
    }
    IndexAppend(left, b, sign);
    Associative(left, sign, right);
  }

  lemma NotEqualReads(left: string, right: string)
    requires Trimmed(left) && Trimmed(right) && !Contains(left, NOT_EQUAL)
    ensures HalvesOf(left + NOT_EQUAL + right) == Some(Halves(left, NOT_EQUAL, right))
  {
    FirstSign(left, NOT_EQUAL, right);
    SplitAtSign(left, NOT_EQUAL, right);
  }

  lemma EqualIsNoNotEqual(left: string, right: string)
    requires !Contains(left, NOT_EQUAL) && !Contains(right, NOT_EQUAL)
    requires left == [] || left[|left| - 1] != '!'
    ensures !Contains(left + EQUAL + right, NOT_EQUAL)
  {
    var b := EQUAL + right;
    NoFirstChar(EQUAL, NOT_EQUAL);
    TwoCharJoint(EQUAL, right, NOT_EQUAL);
    JoinWithout(EQUAL, right, NOT_EQUAL);
    TwoCharJoint(left, b, NOT_EQUAL);
    JoinWithout(left, b, NOT_EQUAL);
    Associative(left, EQUAL, right);
  }

  lemma EqualReads(left: string, right: string)
    requires Trimmed(left) && Trimmed(right) && Separated(left, EQUAL, right)
    requires left == [] || left[|left| - 1] != '!'
    ensures HalvesOf(left + EQUAL + right) == Some(Halves(left, EQUAL, right))
  {
    EqualIsNoNotEqual(left, right);
    FirstSign(left, EQUAL, right);
    SplitAtSign(left, EQUAL, right);
  }

  lemma OperatorFree(op: string)
    requires op == EQUAL || op == NOT_EQUAL
    ensures Free(op)
  {
    NoFirstChar(op, AND);
    TwoCharJoint("!", "=", ARROW);
    NoFirstChar("!", ARROW);
    SingleIsNoArrow("=");
    if op == NOT_EQUAL {
      JoinWithout("!", "=", ARROW);
      assert "!" + "=" == NOT_EQUAL;
    }
  }

  lemma SingleIsNoArrow(s: string)
    requires |s| == 1
    ensures !Contains(s, ARROW)
  {
  }

  lemma TextFree(left: string, op: string, right: string)
    requires Free(left) && Free(right) && (op == EQUAL || op == NOT_EQUAL) && !Sharp(right)
    ensures Free(left + op + right)
  {
    OperatorFree(op);
    OneCharJoint(left, op, AND);
    JoinWithout(left, op, AND);
    OneCharJoint(left + op, right, AND);
    JoinWithout(left + op, right, AND);
    TwoCharJoint(left, op, ARROW);
    JoinWithout(left, op, ARROW);
    TwoCharJoint(left + op, right, ARROW);
    JoinWithout(left + op, right, ARROW);
  }

  /** What is left of a condition whose sign and value form an arrow. */
  function Stump(left: string, op: string): string
  {
    if op == EQUAL then left else left + "!"
  }

  lemma StumpText(left: string, op: string, right: string, more: string)
    requires (op == EQUAL || op == NOT_EQUAL) && Sharp(right)
    ensures left + op + right + more == Stump(left, op) + (ARROW + (right[1..] + more))
  {
  }

  lemma StumpIsCut(left: string, op: string, right: string, more: string)
    requires Free(left) && (op == EQUAL || op == NOT_EQUAL) && Sharp(right)
    ensures Cut(left + op + right + more) == Stump(left, op) && Free(Stump(left, op))
  {
    var u, rest := Stump(left, op), right[1..] + more;
    if op == NOT_EQUAL {
      NoFirstChar("!", ARROW);
      TwoCharJoint(left, "!", ARROW);
      JoinWithout(left, "!", ARROW);
      NoFirstChar("!", AND);
      OneCharJoint(left, "!", AND);
      JoinWithout(left, "!", AND);
    }
    CutAtArrow(u, rest);
    StumpText(left, op, right, more);
  }

  /** A stump is never read as the condition it comes from. */
  lemma StumpMisreads(left: string, relation: string, right: string)
    requires Separated(left, relation, right)
    ensures HalvesOf(Stump(left, relation)).Some? ==> HalvesOf(Stump(left, relation)).value.relation != relation
  {
    if relation == NOT_EQUAL {
      SingleIsNoNotEqual("!");
      TwoCharJoint(left, "!", NOT_EQUAL);
      JoinWithout(left, "!", NOT_EQUAL);
    }
  }

  lemma SingleIsNoNotEqual(s: string)
    requires |s| == 1
    ensures !Contains(s, NOT_EQUAL)
  {
  }

  // --------------------------------------------------------------- route conditions

  function Bracketed(index: string): string
  {
    ARGUMENTS + index + "]"
  }

  lemma BracketedWithout(index: string, pat: string)
    requires !Contains(index, pat) && (pat == AND || pat == ARROW || pat == EQUAL || pat == NOT_EQUAL)
    ensures !Contains(Bracketed(index), pat)
  {
    NoFirstChar(ARGUMENTS, pat);
    NoFirstChar("]", pat);
    if |pat| == 1 {
      OneCharJoint(ARGUMENTS, index, pat);
      OneCharJoint(ARGUMENTS + index, "]", pat);
    } else {
      TwoCharJoint(ARGUMENTS, index, pat);
      TwoCharJoint(ARGUMENTS + index, "]", pat);
    }
    JoinWithout(ARGUMENTS, index, pat);
    JoinWithout(ARGUMENTS + index, "]", pat);
  }

  lemma BracketedShape(index: string)
    ensures var b := Bracketed(index);
            Trimmed(b) && IndexOf(b) == index && |b| > 1 && b[0] == 'a' && b[|b| - 1] == ']'
  {
    var b := Bracketed(index);
    assert b[..10] == ARGUMENTS;
    assert b[10..|b| - 1] == index;
  }

  lemma BracketedSeparated(c: RouteCondition)
    requires Readable(c)
    ensures Free(Bracketed(c.index)) && Separated(Bracketed(c.index), c.relation, c.value)
  {
    BracketedWithout(c.index, AND);
    BracketedWithout(c.index, ARROW);
    BracketedWithout(c.index, c.relation);
    if c.relation == EQUAL {
      BracketedWithout(c.index, NOT_EQUAL);
    }
  }

  lemma RouteTextReads(c: RouteCondition)
    requires Readable(c)
    ensures RouteIn(RouteText(c)) == [c]
  {
    var b := Bracketed(c.index);
    BracketedSeparated(c);
    BracketedShape(c.index);
    if c.relation == EQUAL {
      EqualReads(b, c.value);
    } else {
      NotEqualReads(b, c.value);
    }
  }

  /** Not a method piece, and not changed by trimming. */
  predicate Settled(p: string)
  {
    p != [] && p[0] == 'a' && Trimmed(p) && !Contains(p, AND)
  }

  lemma RouteTextSettled(c: RouteCondition)
    requires Readable(c) && !Sharp(c.value)
    ensures Settled(RouteText(c)) && Free(RouteText(c))
  {
    BracketedSeparated(c);
    BracketedShape(c.index);
    TextFree(Bracketed(c.index), c.relation, c.value);
  }

  /** A blank piece says nothing. */
  lemma BlankReads(pad: string, m: string)
    requires Blank(pad)
    ensures From(Split(pad, AND), m) == (m, []) && RouteIn(Trim(pad)) == [] && !(METHOD <= Trim(pad))
  {
    BlankHasNoAnd(pad);
    TrimLeftBlank(pad);
    assert Trim(pad) == "";
    NoFirstChar("", NOT_EQUAL);
    NoFirstChar("", EQUAL);
    FromFront(pad, [], m);
    assert Split(pad, AND) == [pad] == [pad] + [];
    assert From([], m) == (m, []);
    assert RouteIn("") == [] && RouteIn("") + [] == [];
  }

  /** Text that ends a piece: white space, or white space and the next separator. */
  predicate EndsPiece(w: string)
  {
    Blank(w) || (|w| >= 2 && w[0] == ' ' && w[1] == '&')
  }

  lemma SpacedSplit(p: string, x: string)
    requires !Contains(p, AND)
    ensures Split(p + " &" + x, AND) == [p + " "] + Split(x, AND)
  {
    NoFirstChar(" ", AND);
    OneCharJoint(p, " ", AND);
    JoinWithout(p, " ", AND);
    OneCharJoint(p + " ", AND + x, AND);
    SplitFirst(p + " ", AND, x);
    assert p + " " + AND + x == p + " &" + x;
  }

  lemma BlankIsEmptyPiece(x: string, m: string)
    ensures From(Split(" &" + x, AND), m) == From(Split(x, AND), m)
  {
    NoFirstChar("", AND);
    SpacedSplit("", x);
    assert "" + " &" + x == " &" + x && "" + " " == " ";
    BlankReads(" ", m);
    FromFront(" ", Split(x, AND), m);
    var rest := From(Split(x, AND), m);
    assert [] + rest.1 == rest.1;
  }

  lemma SettledReads(p: string, pad: string, ps: seq<string>, m: string)
    requires Settled(p) && Blank(pad)
    ensures From([p + pad] + ps, m) == (From(ps, m).0, RouteIn(p) + From(ps, m).1)
  {
    TrimPadRight(p, pad);
    TrimIs(p);
    FromFront(p + pad, ps, m);
  }

  /** A settled piece adds its condition to what follows. */
  lemma HeadPiece(p: string, w: string, m: string)
    requires Settled(p) && EndsPiece(w)
    ensures var rest := From(Split(w, AND), m);
            From(Split(p + w, AND), m) == (rest.0, RouteIn(p) + rest.1)
  {
    if Blank(w) {
      BlankReads(w, m);
      BlankHasNoAnd(w);
      OneCharJoint(p, w, AND);
      JoinWithout(p, w, AND);
      SettledReads(p, w, [], m);
      assert Split(p + w, AND) == [p + w] + [];
    } else {
      var x := w[2..];
      assert w == " &" + x && p + w == p + " &" + x;
      SpacedSplit(p, x);
      BlankIsEmptyPiece(x, m);
      SettledReads(p, " ", Split(x, AND), m);
    }
  }

  /** What may follow the route conditions. */
  predicate IsTail(tail: string)
  {
    tail == "" || (|tail| >= 3 && tail[0] == ' ' && tail[1] == '=' && tail[2] == '>')
  }

  lemma CutTail(tail: string)
    requires IsTail(tail)
    ensures Blank(Cut(tail))
  {
    if tail == "" {
      NoFirstChar("", ARROW);
    } else {
      NoFirstChar(" ", ARROW);
      CutAtArrow(" ", tail[3..]);
      assert tail == " " + (ARROW + tail[3..]);
    }
  }

  ghost predicate NoneSharp(cs: seq<RouteCondition>)
  {
    forall i :: 0 <= i < |cs| ==> !Sharp(cs[i].value)
  }

  /** Cutting after a separator goes on with the cut of the rest. */
  lemma CutAfterAnd(b: string)
    ensures Cut(" & " + b) == " & " + Cut(b)
  {
    NoFirstChar(" & ", ARROW);
    CutAppend(" & ", b);
  }

  /** The text of conditions, seen from its first one. */
  lemma RoutesTextFront(c: RouteCondition, cs: seq<RouteCondition>, tail: string)
    ensures RoutesText([c] + cs) + tail == " & " + (RouteText(c) + (RoutesText(cs) + tail))
  {
    var all := [c] + cs;
    assert all[1..] == cs;
    Associative(" & ", RouteText(c), RoutesText(cs));
    Associative(" & ", RouteText(c) + RoutesText(cs), tail);
    Associative(RouteText(c), RoutesText(cs), tail);
  }

  lemma CutEndsPiece(cs: seq<RouteCondition>, tail: string)
    requires IsTail(tail)
    ensures EndsPiece(Cut(RoutesText(cs) + tail)) && !Sharp(RoutesText(cs) + tail)
  {
    if cs == [] {
      CutTail(tail);
      assert RoutesText(cs) + tail == tail;
    } else {
      var rest := RouteText(cs[0]) + (RoutesText(cs[1..]) + tail);
      assert cs == [cs[0]] + cs[1..];
      RoutesTextFront(cs[0], cs[1..], tail);
      CutAfterAnd(rest);
    }
  }

  /** One more piece in front, after a separator. */
  lemma PieceAfterAnd(p: string, w: string, m: string)
    requires Settled(p) && EndsPiece(w)
    ensures var rest := From(Split(w, AND), m);
            From(Split(" & " + (p + w), AND), m) == (rest.0, RouteIn(p) + rest.1)
  {
    assert " & " + (p + w) == " &" + (" " + (p + w));
    BlankIsEmptyPiece(" " + (p + w), m);
    PadLeft(" ", p + w);
    AlikeReadAlike(Split(" " + (p + w), AND), Split(p + w, AND), m);
    HeadPiece(p, w, m);
  }

  /** A route condition that forms no arrow is read, and the rest after it. */
  lemma RouteGoesOn(c: RouteCondition, cs: seq<RouteCondition>, tail: string, m: string)
    requires Readable(c) && !Sharp(c.value) && IsTail(tail)
    ensures var rest := From(Split(Cut(RoutesText(cs) + tail), AND), m);
            From(Split(Cut(RoutesText([c] + cs) + tail), AND), m) == (rest.0, [c] + rest.1)
  {
    var r, b := RouteText(c), RoutesText(cs) + tail;
    RouteTextSettled(c);
    RouteTextReads(c);
    CutEndsPiece(cs, tail);
    RoutesTextFront(c, cs, tail);
    CutAfterAnd(r + b);
    CutAppend(r, b);
    PieceAfterAnd(r, Cut(b), m);
  }

  lemma StumpSettled(c: RouteCondition)
    requires Readable(c) && Sharp(c.value)
    ensures Settled(Stump(Bracketed(c.index), c.relation))
  {
    BracketedSeparated(c);
    BracketedShape(c.index);
    StumpIsCut(Bracketed(c.index), c.relation, c.value, "");
  }

  lemma StumpIsNotIt(c: RouteCondition)
    requires Readable(c)
    ensures var found := RouteIn(Stump(Bracketed(c.index), c.relation)); found == [] || found[0] != c
  {
    BracketedSeparated(c);
    StumpMisreads(Bracketed(c.index), c.relation, c.value);
  }

  lemma CutAtRoute(c: RouteCondition, cs: seq<RouteCondition>, tail: string)
    requires Readable(c) && Sharp(c.value)
    ensures Cut(RoutesText([c] + cs) + tail) == " & " + Stump(Bracketed(c.index), c.relation)
  {
    var more := RoutesText(cs) + tail;
    BracketedSeparated(c);
    RoutesTextFront(c, cs, tail);
    CutAfterAnd(RouteText(c) + more);
    StumpIsCut(Bracketed(c.index), c.relation, c.value, more);
  }

  /** A route condition that forms an arrow ends the text, and is lost. */
  lemma RouteStops(c: RouteCondition, cs: seq<RouteCondition>, tail: string, m: string)
    requires Readable(c) && Sharp(c.value)
    ensures var found := From(Split(Cut(RoutesText([c] + cs) + tail), AND), m);
            found.0 == m && (found.1 == [] || found.1[0] != c)
  {
    var u := Stump(Bracketed(c.index), c.relation);
    CutAtRoute(c, cs, tail);
    StumpSettled(c);
    PieceAfterAnd(u, "", m);
    assert u + "" == u;
    BlankReads("", m);
    assert RouteIn(u) + [] == RouteIn(u);
    StumpIsNotIt(c);
  }

  lemma SameAfterHead<T>(x: T, a: seq<T>, b: seq<T>)
    ensures [x] + a == [x] + b <==> a == b
  {
    assert ([x] + a)[1..] == a && ([x] + b)[1..] == b;
  }

  /** The route conditions come back exactly when none of their values forms an arrow. */
  lemma {:induction false} RoutesBackIff(cs: seq<RouteCondition>, tail: string, m: string)
    requires AllReadable(cs) && IsTail(tail)
    ensures var found := From(Split(Cut(RoutesText(cs) + tail), AND), m);
            found.0 == m && (found.1 == cs <==> NoneSharp(cs))
  {
    if cs == [] {
      assert RoutesText(cs) + tail == tail;
      CutTail(tail);
      BlankReads(Cut(tail), m);
    } else {
      var c, rest := cs[0], cs[1..];
      assert cs == [c] + rest;
      if Sharp(c.value) {
        RouteStops(c, rest, tail, m);
      } else {
        RoutesBackIff(rest, tail, m);
        RouteGoesOn(c, rest, tail, m);
        assert NoneSharp(cs) <==> NoneSharp(rest);
        SameAfterHead(c, From(Split(Cut(RoutesText(rest) + tail), AND), m).1, rest);
      }
    }
  }

  // --------------------------------------------------------- destination conditions

  /** "a!" with "=" is written like "a" with "!=". */
  predicate Bang(c: DestinationCondition)
  {
    c.relation == EQUAL && c.tag != [] && c.tag[|c.tag| - 1] == '!'
  }

  lemma DestinationReads(c: DestinationCondition)
    requires ReadableDestination(c) && !Bang(c)
    ensures ConditionIn(DestinationText(c)) == [c]
  {
    if c.relation == EQUAL {
      EqualReads(c.tag, c.value);
    } else {
      NotEqualReads(c.tag, c.value);
    }
  }

  lemma BangMisreads(c: DestinationCondition)
    requires Bang(c)
    ensures var found := ConditionIn(DestinationText(c)); |found| <= 1 && (found == [] || found[0] != c)
  {
    var t, i := DestinationText(c), |c.tag| - 1;
    assert t[i] == '!' && t[i + 1] == '=';
    assert MatchAt(t, NOT_EQUAL, i);
    if !Contains(t, NOT_EQUAL) {
      IndexFirst(t, NOT_EQUAL, i);
    }
    assert NOT_EQUAL[0] != EQUAL[0];
  }

  lemma DestinationTextShape(c: DestinationCondition)
    requires ReadableDestination(c) && !Sharp(c.value)
    ensures Free(DestinationText(c)) && Trimmed(DestinationText(c))
  {
    TextFree(c.tag, c.relation, c.value);
  }

  /** One piece before a separator adds its condition to what follows. */
  lemma ConditionBeforeAnd(p: string, x: string)
    requires !Contains(p, AND) && Trimmed(p)
    ensures To(Split(p + (" & " + x), AND)) == ConditionIn(p) + To(Split(x, AND))
  {
    assert p + (" & " + x) == p + " &" + (" " + x);
    SpacedSplit(p, " " + x);
    ToFront(p + " ", Split(" " + x, AND));
    TrimPadRight(p, " ");
    TrimIs(p);
    PadLeft(" ", x);
    AlikeReadAlike(Split(" " + x, AND), Split(x, AND), "");
  }

  lemma OneCondition(p: string)
    requires !Contains(p, AND) && Trimmed(p)
    ensures To(Split(p, AND)) == ConditionIn(p)
  {
    TrimIs(p);
    ToFront(p, []);
    assert Split(p, AND) == [p] == [p] + [];
    assert To([]) == [];
    assert ConditionIn(p) + [] == ConditionIn(p);
  }

  lemma {:induction false} ConditionsTextFront(c: DestinationCondition, cs: seq<DestinationCondition>)
    ensures ConditionsText([c] + cs, true) == DestinationText(c) + ConditionsText(cs, false)
    ensures cs != [] ==> ConditionsText(cs, false) == " & " + ConditionsText(cs, true)
  {
    var all := [c] + cs;
    assert all[1..] == cs;
    assert "" + DestinationText(c) == DestinationText(c);
    if cs != [] {
      var d := DestinationText(cs[0]);
      assert "" + d == d;
      Associative(" & ", d, ConditionsText(cs[1..], false));
    }
  }

  ghost function ReadBack(cs: seq<DestinationCondition>): seq<DestinationCondition>
  {
    To(Split(Cut(ConditionsText(cs, true)), AND))
  }

  predicate Plain(c: DestinationCondition)
  {
    !Sharp(c.value) && !Bang(c)
  }

  ghost predicate AllPlain(cs: seq<DestinationCondition>)
  {
    forall i :: 0 <= i < |cs| ==> Plain(cs[i])
  }

  lemma ConditionStops(c: DestinationCondition, cs: seq<DestinationCondition>)
    requires ReadableDestination(c) && Sharp(c.value)
    ensures var found := ReadBack([c] + cs); |found| <= 1 && (found == [] || found[0] != c)
  {
    var u := Stump(c.tag, c.relation);
    ConditionsTextFront(c, cs);
    StumpIsCut(c.tag, c.relation, c.value, ConditionsText(cs, false));
    OneCondition(u);
    StumpMisreads(c.tag, c.relation, c.value);
  }

  lemma ConditionGoesOn(c: DestinationCondition, cs: seq<DestinationCondition>)
    requires ReadableDestination(c) && !Sharp(c.value)
    ensures ReadBack([c] + cs) == ConditionIn(DestinationText(c)) + if cs == [] then [] else ReadBack(cs)
  {
    var d, x := DestinationText(c), ConditionsText(cs, true);
    DestinationTextShape(c);
    ConditionsTextFront(c, cs);
    if cs == [] {
      assert d + "" == d;
      OneCondition(d);
    } else {
      CutAppend(d, " & " + x);
      CutAfterAnd(x);
      ConditionBeforeAnd(d, Cut(x));
    }
  }

  /** A head that forms no arrow: both it and the rest must come back. */
  lemma HeadBackIff(c: DestinationCondition, found: seq<DestinationCondition>, rest: seq<DestinationCondition>)
    requires ReadableDestination(c) && |found| <= |rest|
    ensures var all := ConditionIn(DestinationText(c)) + found;
            |all| <= |rest| + 1 && (all == [c] + rest <==> !Bang(c) && found == rest)
  {
    if Bang(c) {
      BangMisreads(c);
      var read := ConditionIn(DestinationText(c));
      assert read != [] ==> (read + found)[0] == read[0];
      assert ([c] + rest)[0] == c;
    } else {
      DestinationReads(c);
      SameAfterHead(c, found, rest);
    }
  }

  lemma AllPlainFront(c: DestinationCondition, rest: seq<DestinationCondition>)
    ensures AllPlain([c] + rest) <==> Plain(c) && AllPlain(rest)
  {
    assert ([c] + rest)[0] == c;
    assert forall i :: 0 <= i < |rest| ==> ([c] + rest)[i + 1] == rest[i];
  }

  /** Conditions of one destination come back exactly when all of them are plain. */
  lemma {:induction false} ConditionsBackIff(cs: seq<DestinationCondition>)
    requires cs != [] && AllReadableDestinations(cs)
    ensures |ReadBack(cs)| <= |cs| && (ReadBack(cs) == cs <==> AllPlain(cs))
  {
    var c, rest := cs[0], cs[1..];
    assert cs == [c] + rest;
    AllPlainFront(c, rest);
    if Sharp(c.value) {
      ConditionStops(c, rest);
    } else {
      ConditionGoesOn(c, rest);
      if rest != [] {
        ConditionsBackIff(rest);
      }
      HeadBackIff(c, if rest == [] then [] else ReadBack(rest), rest);
    }
  }

  // -------------------------------------------------------------- the whole argument

  lemma TrimReadsAlike(s: string, m: string)
    ensures From(Split(Trim(s), AND), m) == From(Split(s, AND), m)
    ensures To(Split(Trim(s), AND)) == To(Split(s, AND))
  {
    var before, after := TrimParts(s);
    PadLeft(before, Trim(s) + after);
    PadRight(Trim(s), after);
    AlikeReadAlike(Split(before + (Trim(s) + after), AND), Split(Trim(s) + after, AND), m);
    AlikeReadAlike(Split(Trim(s) + after, AND), Split(Trim(s), AND), m);
  }

  lemma MethodWord()
    ensures Free(METHOD)
  {
    NoFirstChar(METHOD, AND);
    NoFirstChar("method", ARROW);
    TwoCharJoint("method", "=", ARROW);
    SingleIsNoArrow("=");
    JoinWithout("method", "=", ARROW);
    assert "method" + "=" == METHOD;
  }

  lemma MethodText(m: string)
    requires ReadableMethod(m) && !Sharp(m)
    ensures Free(METHOD + m) && Trimmed(METHOD + m)
  {
    MethodWord();
    OneCharJoint(METHOD, m, AND);
    JoinWithout(METHOD, m, AND);
    TwoCharJoint(METHOD, m, ARROW);
    JoinWithout(METHOD, m, ARROW);
  }

  lemma MethodReading(m: string, pad: string)
    requires ReadableMethod(m) && !Sharp(m) && Blank(pad)
    ensures ReadPiece(METHOD + m + pad) == Method(m)
  {
    var a := METHOD + m;
    MethodText(m);
    TrimPadRight(a, pad);
    TrimIs(a);
    TrimIs(m);
    assert a[7..] == m;
  }

  lemma MethodReads(m: string, pad: string, ps: seq<string>)
    requires ReadableMethod(m) && !Sharp(m) && Blank(pad)
    ensures From([METHOD + m + pad] + ps, "") == From(ps, m)
  {
    MethodReading(m, pad);
    FromFront(METHOD + m + pad, ps, "");
  }

  /** The first piece gives the method; the conditions come from what follows it. */
  lemma MethodPiece(m: string, w: string)
    requires ReadableMethod(m) && !Sharp(m) && EndsPiece(w)
    ensures From(Split(METHOD + m + w, AND), "") == From(Split(w, AND), m)
  {
    var a := METHOD + m;
    MethodText(m);
    if Blank(w) {
      BlankReads(w, m);
      BlankHasNoAnd(w);
      OneCharJoint(a, w, AND);
      JoinWithout(a, w, AND);
      MethodReads(m, w, []);
      assert Split(a + w, AND) == [a + w] == [a + w] + [];
    } else {
      var x := w[2..];
      assert w == " &" + x && a + w == a + " &" + x;
      SpacedSplit(a, x);
      BlankIsEmptyPiece(x, m);
      MethodReads(m, " ", Split(x, AND));
    }
  }

  lemma TailIsTail(ds: seq<Destination>)
    ensures IsTail(Tail(ds))
  {
  }

  lemma ExpressionFront(sa: ServiceArgument)
    ensures Expression(sa) == METHOD + sa.method_ + (RoutesText(sa.conditions) + Tail(sa.destinations))
  {
    Associative(METHOD + sa.method_, RoutesText(sa.conditions), Tail(sa.destinations));
  }

  lemma BareMethodWord()
    ensures From(Split(Trim("method"), AND), "").0 == ""
  {
    NoFirstChar("method", AND);
    TrimIs("method");
    FromFront("method", [], "");
    assert Split("method", AND) == ["method"] == ["method"] + [];
    assert From([], "") == ("", []);
  }

  lemma SharpMethodIsLost(sa: ServiceArgument)
    requires Sharp(sa.method_)
    ensures Parse(Expression(sa)).method_ == ""
  {
    var b := RoutesText(sa.conditions) + Tail(sa.destinations);
    ExpressionFront(sa);
    SharpMethodText(sa.method_, b);
    NoFirstChar("method", ARROW);
    CutAtArrow("method", sa.method_[1..] + b);
    BareMethodWord();
  }

  lemma SharpMethodText(m: string, b: string)
    requires Sharp(m)
    ensures METHOD + m + b == "method" + (ARROW + (m[1..] + b))
  {
  }

  /** Method and route conditions come back exactly when none of them forms an arrow. */
  lemma FromBackIff(sa: ServiceArgument)
    requires ReadableMethod(sa.method_) && AllReadable(sa.conditions)
    ensures var back := Parse(Expression(sa));
            back.method_ == sa.method_ && back.conditions == sa.conditions
            <==> !Sharp(sa.method_) && NoneSharp(sa.conditions)
  {
    if Sharp(sa.method_) {
      SharpMethodIsLost(sa);
    } else {
      var a, b := METHOD + sa.method_, RoutesText(sa.conditions) + Tail(sa.destinations);
      ExpressionFront(sa);
      TailIsTail(sa.destinations);
      MethodText(sa.method_);
      CutEndsPiece(sa.conditions, Tail(sa.destinations));
      CutAppend(a, b);
      TrimReadsAlike(Cut(Expression(sa)), "");
      MethodPiece(sa.method_, Cut(b));
      RoutesBackIff(sa.conditions, Tail(sa.destinations), sa.method_);
    }
  }

  lemma {:induction false} RoutesTextNoArrow(cs: seq<RouteCondition>)
    requires AllReadable(cs) && NoneSharp(cs)
    ensures !Contains(RoutesText(cs), ARROW) && !Sharp(RoutesText(cs))
  {
    if cs == [] {
      NoFirstChar("", ARROW);
    } else {
      var r, rest := RouteText(cs[0]), RoutesText(cs[1..]);
      RoutesTextNoArrow(cs[1..]);
      RouteTextSettled(cs[0]);
      NoFirstChar(" & ", ARROW);
      TwoCharJoint(" & ", r, ARROW);
      JoinWithout(" & ", r, ARROW);
      TwoCharJoint(" & " + r, rest, ARROW);
      JoinWithout(" & " + r, rest, ARROW);
    }
  }

  lemma FromTextNoArrow(m: string, cs: seq<RouteCondition>)
    requires ReadableMethod(m) && !Sharp(m) && AllReadable(cs) && NoneSharp(cs)
    ensures !Contains(METHOD + m + RoutesText(cs), ARROW)
  {
    MethodText(m);
    RoutesTextNoArrow(cs);
    TwoCharJoint(METHOD + m, RoutesText(cs), ARROW);
    JoinWithout(METHOD + m, RoutesText(cs), ARROW);
  }

  lemma ArrowText(from: string, x: string)
    ensures from + " " + ARROW + (" " + x) == from + (" => " + x)
  {
  }

  /** Behind the arrow the parser sees the destinations' text up to the next arrow. */
  lemma BehindArrow(from: string, x: string)
    requires !Contains(from, ARROW)
    ensures var parts := Split(from + (" => " + x), ARROW); |parts| > 1 && parts[1] == " " + Cut(x)
  {
    var a, b := from + " ", " " + x;
    NoFirstChar(" ", ARROW);
    TwoCharJoint(from, " ", ARROW);
    JoinWithout(from, " ", ARROW);
    TwoCharJoint(a, ARROW + b, ARROW);
    SplitFirst(a, ARROW, b);
    ArrowText(from, x);
    CutAppend(" ", x);
    assert Split(b, ARROW)[0] == Cut(b);
  }

  lemma OneDestinationText(d: Destination)
    ensures DestinationsText([d], true) == ConditionsText(d.conditions, true)
  {
    var t := ConditionsText(d.conditions, true);
    assert [d][1..] == [];
    assert t + "" + "" == t;
  }

  /** What one destination comes back as. */
  lemma DestinationBack(sa: ServiceArgument, d: Destination)
    requires ReadableMethod(sa.method_) && !Sharp(sa.method_) && AllReadable(sa.conditions) && NoneSharp(sa.conditions)
    requires sa.destinations == [d]
    ensures Parse(Expression(sa)).destinations == DestinationsOf(Trim(Cut(ConditionsText(d.conditions, true))))
  {
    var from, x := METHOD + sa.method_ + RoutesText(sa.conditions), ConditionsText(d.conditions, true);
    FromTextNoArrow(sa.method_, sa.conditions);
    OneDestinationText(d);
    BehindArrow(from, x);
    TrimPadLeft(" ", Cut(x));
  }

  lemma DestinationBackIff(sa: ServiceArgument, d: Destination)
    requires ReadableMethod(sa.method_) && !Sharp(sa.method_) && AllReadable(sa.conditions) && NoneSharp(sa.conditions)
    requires sa.destinations == [d] && AllReadableDestinations(d.conditions)
    ensures Parse(Expression(sa)).destinations == [d]
       <==> d.conditions != [] && d.weight == 0 && AllPlain(d.conditions)
  {
    var x := ConditionsText(d.conditions, true);
    DestinationBack(sa, d);
    if d.conditions == [] {
      NoFirstChar("", ARROW);
      assert Cut(x) == "" == Trim("");
    } else {
      ConditionsBackIff(d.conditions);
      TrimReadsAlike(Cut(x), "");
      if Trim(Cut(x)) == "" {
        NothingToRead();
      }
    }
  }

  lemma NothingToRead()
    ensures To(Split("", AND)) == []
  {
    NoFirstChar("", AND);
    NoFirstChar("", EQUAL);
    NoFirstChar("", NOT_EQUAL);
    OneCondition("");
  }

  lemma NoDestinationBack(sa: ServiceArgument)
    requires ReadableMethod(sa.method_) && !Sharp(sa.method_) && AllReadable(sa.conditions) && NoneSharp(sa.conditions)
    requires sa.destinations == []
    ensures Parse(Expression(sa)).destinations == []
  {
    FromTextNoArrow(sa.method_, sa.conditions);
    var from := METHOD + sa.method_ + RoutesText(sa.conditions);
    assert Expression(sa) == from + "" == from;
  }

  // ------------------------------------------------------------------- the theorem

  /** The arguments that survive: what the parser can produce, none of it forming an arrow or a
      false "!=", and at most one destination, not empty and of weight 0. */
  ghost predicate InDomain(sa: ServiceArgument)
  {
    && ReadableMethod(sa.method_) && !Sharp(sa.method_)
    && AllReadable(sa.conditions) && NoneSharp(sa.conditions)
    && (sa.destinations == [] || OneGoodDestination(sa.destinations))
  }

  ghost predicate OneGoodDestination(ds: seq<Destination>)
  {
    && |ds| == 1 && ds[0].weight == 0 && ds[0].conditions != []
    && AllReadableDestinations(ds[0].conditions) && AllPlain(ds[0].conditions)
  }

  /** Parsing an argument's expression gives the argument back exactly on this domain. */
  lemma RoundTripIff(sa: ServiceArgument)
    ensures Parse(Expression(sa)) == sa <==> InDomain(sa)
  {
    ParseIsReadable(Expression(sa));
    if ReadableMethod(sa.method_) && AllReadable(sa.conditions) {
      FromBackIff(sa);
      if !Sharp(sa.method_) && NoneSharp(sa.conditions) {
        if sa.destinations == [] {
          NoDestinationBack(sa);
        } else if |sa.destinations| == 1 && AllReadableDestinations(sa.destinations[0].conditions) {
          assert sa.destinations == [sa.destinations[0]];
          DestinationBackIff(sa, sa.destinations[0]);
        }
      }
    }
  }

  /** Two destinations never come back. */
  lemma ManyDestinationsAreLost(sa: ServiceArgument)
    requires |sa.destinations| > 1
    ensures Parse(Expression(sa)) != sa
  {
    RoundTripIff(sa);
  }

  /** A field of ordinary characters. */
  predicate Ordinary(s: string)
  {
    forall i :: 0 <= i < |s| ==> !IsSpace(s[i]) && s[i] != '&' && s[i] != '=' && s[i] != '!' && s[i] != '>'
  }

  lemma OrdinaryIsClear(s: string)
    requires Ordinary(s)
    ensures Free(s) && Trimmed(s) && !Sharp(s) && !Contains(s, EQUAL) && !Contains(s, NOT_EQUAL)
  {
    NoFirstChar(s, AND);
    NoFirstChar(s, ARROW);
    NoFirstChar(s, EQUAL);
    NoFirstChar(s, NOT_EQUAL);
  }

  /** Any number of conditions over ordinary fields, with at most one non-empty destination of
      weight 0, comes back. */
  lemma OrdinaryRoundTrip(sa: ServiceArgument)
    requires Ordinary(sa.method_)
    requires forall i :: 0 <= i < |sa.conditions| ==>
      var c := sa.conditions[i];
      c.index != "" && Ordinary(c.index) && Ordinary(c.value) && (c.relation == EQUAL || c.relation == NOT_EQUAL)
    requires sa.destinations == [] || (|sa.destinations| == 1 && sa.destinations[0].weight == 0
                                       && sa.destinations[0].conditions != [])
    requires sa.destinations != [] ==>
      forall i :: 0 <= i < |sa.destinations[0].conditions| ==>
        var c := sa.destinations[0].conditions[i];
        c.tag != "" && Ordinary(c.tag) && Ordinary(c.value) && (c.relation == EQUAL || c.relation == NOT_EQUAL)
    ensures Parse(Expression(sa)) == sa
  {
    OrdinaryIsClear(sa.method_);
    forall i | 0 <= i < |sa.conditions| ensures Readable(sa.conditions[i]) && !Sharp(sa.conditions[i].value) {
      OrdinaryIsClear(sa.conditions[i].index);
      OrdinaryIsClear(sa.conditions[i].value);
    }
    if sa.destinations != [] {
      var cs := sa.destinations[0].conditions;
      forall i | 0 <= i < |cs| ensures ReadableDestination(cs[i]) && Plain(cs[i]) {
        OrdinaryIsClear(cs[i].tag);
        OrdinaryIsClear(cs[i].value);
      }
    }
    RoundTripIff(sa);
  }
}
