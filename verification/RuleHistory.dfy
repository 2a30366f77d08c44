/** One rule and its history: every change is recorded before the live rule is touched. */
module RuleHistory {
  import Text
  import opened Wrappers

  datatype Operation = CREATE | UPDATE | DELETE | OTHER
  datatype Source = Admin | Baseline | Rollback

  datatype Version = Version(no: int, op: Operation, content: string, source: Source, rolledBackFrom: Option<int>)

  /** The recorded versions, oldest first, and the live rule's content. */
  datatype State = State(history: seq<Version>, live: Option<string>)

  const DELETED_CONTENT := "{}"

  // ---------------------------------------------------- how each call can go

  /** Recording a version: refused, recorded but reported as failed, or recorded with so many of
      the versions beyond the retention window removed. */
  datatype Recording = NotRecorded | RecordedWithError | RecordedOk(cut: nat)

  /** Writing the live rule. */
  datatype Writing = NotWritten | WrittenWithError | WrittenOk

  datatype Call =
    | Create(locked: bool, content: string, recording: Recording, writing: Writing)
    | Update(locked: bool, readOk: bool, content: string, historyOk: bool, baseline: Recording,
             recording: Recording, writing: Writing)
    | Delete(locked: bool, readOk: bool, historyOk: bool, baseline: Recording,
             recording: Recording, writing: Writing)
    | RollBack(locked: bool, reason: string, target: int, targetOk: bool, readOk: bool, rebuildOk: bool,
               recording: Recording, writing: Writing)

  // -------------------------------------------------------------- recording

  predicate Increasing(h: seq<Version>)
  {
    forall i, j :: 0 <= i < j < |h| ==> h[i].no < h[j].no
  }

  function LastNo(h: seq<Version>): int
  {
    if h == [] then 0 else h[|h| - 1].no
  }

  /** Retention: remove cut of the versions beyond the newest max, the newest of them first. */
  function Retain(h: seq<Version>, max: nat, cut: nat): seq<Version>
  {
    if max == 0 || |h| <= max then h
    else
      var beyond := |h| - max;
      var c := if cut < beyond then cut else beyond;
      h[..beyond - c] + h[beyond..]
  }

  function Record(h: seq<Version>, max: nat, v: Version, r: Recording): seq<Version>
  {
    var next := h + [v.(no := LastNo(h) + 1)];
    match r
    case NotRecorded => h
    case RecordedWithError => next
    case RecordedOk(cut) => Retain(next, max, cut)
  }

  function Write(live: Option<string>, content: Option<string>, w: Writing): Option<string>
  {
    if w.NotWritten? then live else content
  }

  function Entry(op: Operation, content: string, source: Source, from: Option<int>): Version
  {
    Version(0, op, content, source, from)
  }

  /** What a delete records. */
  function Tombstone(): Version
  {
    Entry(DELETE, DELETED_CONTENT, Admin, None)
  }

  /** A live rule that nobody recorded is recorded first. */
  function WithBaseline(h: seq<Version>, max: nat, content: string, r: Recording): seq<Version>
  {
    if h != [] then h else Record(h, max, Entry(CREATE, content, Baseline, None), r)
  }

  predicate BaselineOk(h: seq<Version>, r: Recording)
  {
    h != [] || r.RecordedOk?
  }

  // ------------------------------------------------------------- the four calls

  function Find(h: seq<Version>, no: int): Option<Version>
  {
    if h == [] then None
    else if h[|h| - 1].no == no then Some(h[|h| - 1])
    else Find(h[..|h| - 1], no)
  }

  /** A recorded change followed by the live write. */
  function Changed(s: State, max: nat, v: Version, content: Option<string>, r: Recording, w: Writing): State
  {
    var h := Record(s.history, max, v, r);
    State(h, if r.RecordedOk? then Write(s.live, content, w) else s.live)
  }

  predicate ChangedOk(r: Recording, w: Writing)
  {
    r.RecordedOk? && w.WrittenOk?
  }

  /** What a rollback goes back to, unless it is refused. */
  function RollbackTarget(s: State, c: Call): Option<Version>
    requires c.RollBack?
  {
    var target := Find(s.history, c.target);
    if Text.Blank(c.reason) || !c.locked || !c.targetOk || target.None? then None
    else if target.value.op != CREATE && target.value.op != UPDATE then None
    else if !c.readOk || s.live == Some(target.value.content) || !c.rebuildOk then None
    else target
  }

  function RollbackEntry(s: State, target: Version): Version
  {
    Entry(if s.live.Some? then UPDATE else CREATE, target.content, Rollback, Some(target.no))
  }

  function Next(s: State, max: nat, c: Call): State
  {
    match c
    case Create(locked, content, r, w) =>
      if locked then Changed(s, max, Entry(CREATE, content, Admin, None), Some(content), r, w) else s
    case Update(locked, readOk, content, historyOk, b, r, w) =>
      if !locked || !readOk || s.live.None? || !historyOk then s
      else
        var s1 := s.(history := WithBaseline(s.history, max, s.live.value, b));
        if BaselineOk(s.history, b) then Changed(s1, max, Entry(UPDATE, content, Admin, None), Some(content), r, w)
        else s1
    case Delete(locked, readOk, historyOk, b, r, w) =>
      if !locked || !readOk || s.live.None? || !historyOk then s
      else
        var s1 := s.(history := WithBaseline(s.history, max, s.live.value, b));
        if BaselineOk(s.history, b) then Changed(s1, max, Tombstone(), None, r, w)
        else s1
    case RollBack(_, _, _, _, _, _, r, w) =>
      var target := RollbackTarget(s, c);
      if target.None? then s
      else Changed(s, max, RollbackEntry(s, target.value), Some(target.value.content), r, w)
  }

  /** Whether the call reports success. */
  predicate Succeeds(s: State, c: Call)
  {
    match c
    case Create(locked, _, r, w) => locked && ChangedOk(r, w)
    case Update(locked, readOk, _, historyOk, b, r, w) =>
      locked && readOk && s.live.Some? && historyOk && BaselineOk(s.history, b) && ChangedOk(r, w)
    case Delete(locked, readOk, historyOk, b, r, w) =>
      locked && readOk && (s.live.None? || (historyOk && BaselineOk(s.history, b) && ChangedOk(r, w)))
    case RollBack(_, _, _, _, _, _, r, w) => RollbackTarget(s, c).Some? && ChangedOk(r, w)
  }

  // ------------------------------------------------------------------ the methods

  class Rule {
    const maxVersions: nat
    var history: seq<Version>
    var live: Option<string>

    ghost function Now(): State
      reads this
    {
      State(history, live)
    }

    constructor (max: nat, existing: Option<string>)
      ensures maxVersions == max && Now() == State([], existing)
    {
      maxVersions := max;
      history := [];
      live := existing;
    }

    /** Delete versions beyond the newest keep, one at a time, until done or a deletion fails. */
    method TrimVersions(keep: nat, cut: nat)
      requires keep > 0
      modifies this`history
      ensures history == Retain(old(history), keep, cut)
    {
      var n := |history|;
      if n <= keep {
        return;
      }
      var next, deleted := n - keep, 0;
      while next > 0 && deleted < cut
        invariant 0 <= next <= n - keep && deleted <= cut && next + deleted == n - keep
        invariant history == old(history)[..next] + old(history)[n - keep..]
        decreases next
      {
        next := next - 1;
        history := history[..next] + history[next + 1..];
        deleted := deleted + 1;
      }
    }

    method Append(v: Version, r: Recording) returns (ok: bool)
      modifies this`history
      ensures history == Record(old(history), maxVersions, v, r)
      ensures ok <==> r.RecordedOk?
    {
      if r.NotRecorded? {
        return false;
      }
      var no := (if history == [] then 0 else history[|history| - 1].no) + 1;
      history := history + [v.(no := no)];
      if r.RecordedWithError? {
        return false;
      }
      if maxVersions > 0 {
        TrimVersions(maxVersions, r.cut);
      }
      return true;
    }

    method WriteLive(content: Option<string>, w: Writing) returns (ok: bool)
      modifies this`live
      ensures live == Write(old(live), content, w)
      ensures ok <==> w.WrittenOk?
    {
      if !w.NotWritten? {
        live := content;
      }
      return w.WrittenOk?;
    }

    method EnsureBaselineHistory(content: string, historyOk: bool, r: Recording) returns (ok: bool)
      modifies this`history
      ensures history == if historyOk then WithBaseline(old(history), maxVersions, content, r) else old(history)
      ensures ok <==> historyOk && BaselineOk(old(history), r)
    {
      if !historyOk {
        return false;
      }
      if history != [] {
        return true;
      }
      ok := Append(Entry(CREATE, content, Baseline, None), r);
    }

    method CreateRule(c: Call) returns (ok: bool)
      requires c.Create?
      modifies this
      ensures Now() == Next(old(Now()), maxVersions, c)
      ensures ok <==> Succeeds(old(Now()), c)
    {
      if !c.locked {
        return false;
      }
      ok := Append(Entry(CREATE, c.content, Admin, None), c.recording);
      if ok {
        ok := WriteLive(Some(c.content), c.writing);
      }
    }

    method UpdateRule(c: Call) returns (ok: bool)
      requires c.Update?
      modifies this
      ensures Now() == Next(old(Now()), maxVersions, c)
      ensures ok <==> Succeeds(old(Now()), c)
    {
      if !c.locked || !c.readOk || live.None? {
        return false;
      }
      ok := EnsureBaselineHistory(live.value, c.historyOk, c.baseline);
      if ok {
        ok := Append(Entry(UPDATE, c.content, Admin, None), c.recording);
        if ok {
          ok := WriteLive(Some(c.content), c.writing);
        }
      }
    }

    method DeleteRule(c: Call) returns (ok: bool)
      requires c.Delete?
      modifies this
      ensures Now() == Next(old(Now()), maxVersions, c)
      ensures ok <==> Succeeds(old(Now()), c)
    {
      if !c.locked || !c.readOk {
        return false;
      }
      if live.None? {
        return true;
      }
      ok := EnsureBaselineHistory(live.value, c.historyOk, c.baseline);
      if ok {
        ok := Append(Tombstone(), c.recording);
        if ok {
          ok := WriteLive(None, c.writing);
        }
      }
    }

    method GetVersion(no: int) returns (v: Option<Version>)
      ensures v == Find(history, no)
    {
      var i := |history|;
      assert history[..i] == history;
      while i > 0
        invariant 0 <= i <= |history|
        invariant Find(history, no) == Find(history[..i], no)
      {
        i := i - 1;
        assert history[..i + 1][..i] == history[..i];
        if history[i].no == no {
          return Some(history[i]);
        }
      }
      return None;
    }

    /** The number of the new version, when the rollback succeeds. */
    method RollbackRuleVersion(c: Call) returns (result: Option<int>)
      requires c.RollBack?
      modifies this
      ensures Now() == Next(old(Now()), maxVersions, c)
      ensures result.Some? <==> Succeeds(old(Now()), c)
      ensures result.Some? ==> result.value == LastNo(old(history)) + 1
    {
      if Text.Blank(c.reason) || !c.locked || !c.targetOk {
        return None;
      }
      var target := GetVersion(c.target);
      if target.None? || target.value.op == DELETE {
        return None;
      }
      if target.value.op != CREATE && target.value.op != UPDATE {
        return None;
      }
      if !c.readOk || (live.Some? && live.value == target.value.content) || !c.rebuildOk {
        return None;
      }
      var no := (if history == [] then 0 else history[|history| - 1].no) + 1;
      var op := if live.Some? then UPDATE else CREATE;
      var ok := Append(Entry(op, target.value.content, Rollback, Some(target.value.no)), c.recording);
      if ok {
        ok := WriteLive(Some(target.value.content), c.writing);
      }
      return if ok then Some(no) else None;
    }
  }

  // ------------------------------------------------- the live rule is a recorded one

  predicate Restorable(v: Version)
  {
    v.op == CREATE || v.op == UPDATE
  }

  ghost predicate Recorded(h: seq<Version>, content: string)
  {
    exists i :: 0 <= i < |h| && Restorable(h[i]) && h[i].content == content
  }

  /** Once there is any history, the live rule is in it. */
  ghost predicate WriteAhead(s: State)
  {
    s.history != [] && s.live.Some? ==> Recorded(s.history, s.live.value)
  }

  /** What retention leaves of the versions before a new one. */
  function Survivors(h: seq<Version>, max: nat, cut: nat): seq<Version>
  {
    if max == 0 || |h| < max then h
    else
      var beyond := |h| + 1 - max;
      var c := if cut < beyond then cut else beyond;
      h[..beyond - c] + h[beyond..]
  }

  lemma RetainShape(h: seq<Version>, last: Version, max: nat, cut: nat)
    requires max > 0 && |h| >= max
    ensures Retain(h + [last], max, cut) == Survivors(h, max, cut) + [last]
  {
    var next, beyond := h + [last], |h| + 1 - max;
    var c := if cut < beyond then cut else beyond;
    assert next[..beyond - c] == h[..beyond - c];
    assert next[beyond..] == h[beyond..] + [last];
  }

  /** The new version is always kept, and is the last. */
  lemma RecordShape(h: seq<Version>, max: nat, v: Version, r: Recording)
    requires !r.NotRecorded?
    ensures Record(h, max, v, r)
         == (if r.RecordedOk? then Survivors(h, max, r.cut) else h) + [v.(no := LastNo(h) + 1)]
  {
    if r.RecordedOk? && max > 0 && |h| >= max {
      RetainShape(h, v.(no := LastNo(h) + 1), max, r.cut);
    }
  }

  lemma RecordedConcat(a: seq<Version>, b: seq<Version>, content: string)
    ensures Recorded(a + b, content) <==> Recorded(a, content) || Recorded(b, content)
  {
    if Recorded(a, content) {
      var i :| 0 <= i < |a| && Restorable(a[i]) && a[i].content == content;
      assert (a + b)[i] == a[i];
    }
    if Recorded(b, content) {
      var i :| 0 <= i < |b| && Restorable(b[i]) && b[i].content == content;
      assert (a + b)[|a| + i] == b[i];
    }
  }

  /** A version that says what the change writes. */
  predicate Says(v: Version, content: Option<string>)
  {
    content.Some? ==> Restorable(v) && v.content == content.value
  }

  /** Exactly when a change of a live, recorded rule keeps it recorded: the write happened, or the
      old content is said again, or it survived retention. */
  lemma ChangeKeepsRecordIff(s: State, max: nat, v: Version, content: Option<string>, r: Recording, w: Writing)
    requires WriteAhead(s) && s.history != [] && s.live.Some? && Says(v, content)
    ensures WriteAhead(Changed(s, max, v, content, r, w))
       <==> || !r.RecordedOk? || !w.NotWritten?
            || (Restorable(v) && v.content == s.live.value)
            || Recorded(Survivors(s.history, max, r.cut), s.live.value)
  {
    if !r.NotRecorded? {
      RecordShape(s.history, max, v, r);
      var kept := if r.RecordedOk? then Survivors(s.history, max, r.cut) else s.history;
      var last := v.(no := LastNo(s.history) + 1);
      assert [last][0] == last;
      RecordedConcat(kept, [last], s.live.value);
      if content.Some? {
        RecordedConcat(kept, [last], content.value);
      }
    }
  }

  /** A change while the rule is not live. */
  lemma ChangeFromNothing(s: State, max: nat, v: Version, content: Option<string>, r: Recording, w: Writing)
    requires s.live.None? && Says(v, content)
    ensures WriteAhead(Changed(s, max, v, content, r, w))
  {
    if r.RecordedOk? && content.Some? {
      RecordShape(s.history, max, v, r);
      var last := v.(no := LastNo(s.history) + 1);
      assert [last][0] == last;
      RecordedConcat(Survivors(s.history, max, r.cut), [last], content.value);
    }
  }

  // ----------------------------------------- how far behind the newest version it may be

  /** The content is recorded with at most d newer versions after it. */
  ghost predicate RecordedWithin(h: seq<Version>, content: string, d: nat)
  {
    exists i :: 0 <= i < |h| && |h| - 1 - d <= i && Restorable(h[i]) && h[i].content == content
  }

  ghost predicate Behind(s: State, d: nat)
  {
    s.history != [] && s.live.Some? ==> RecordedWithin(s.history, s.live.value, d)
  }

  /** How far behind the live rule is after a change: a write brings it up to date, a version that
      is recorded without it puts it one further behind. */
  function ChangeDepth(r: Recording, w: Writing, d: nat): nat
  {
    if r.RecordedOk? && !w.NotWritten? then 0 else if r.NotRecorded? then d else d + 1
  }

  /** A recorded change that does not reach the live rule must leave its version in the window. */
  predicate Tolerable(max: nat, r: Recording, w: Writing, d: nat)
  {
    max == 0 || !r.RecordedOk? || !w.NotWritten? || d + 1 < max
  }

  lemma AppendKeepsWithin(h: seq<Version>, v: Version, content: string, d: nat)
    requires RecordedWithin(h, content, d)
    ensures RecordedWithin(h + [v], content, d + 1)
  {
    var i :| 0 <= i < |h| && |h| - 1 - d <= i && Restorable(h[i]) && h[i].content == content;
    assert (h + [v])[i] == h[i];
  }

  lemma SurvivorsKeepWithin(h: seq<Version>, max: nat, cut: nat, content: string, d: nat)
    requires RecordedWithin(h, content, d) && (max == 0 || d + 1 < max)
    ensures RecordedWithin(Survivors(h, max, cut), content, d)
  {
    var kept := Survivors(h, max, cut);
    var i :| 0 <= i < |h| && |h| - 1 - d <= i && Restorable(h[i]) && h[i].content == content;
    assert kept[|kept| - (|h| - i)] == h[i];
  }

  lemma RecordKeepsWithin(h: seq<Version>, max: nat, v: Version, r: Recording, content: string, d: nat)
    requires RecordedWithin(h, content, d) && !r.NotRecorded?
    requires r.RecordedOk? ==> max == 0 || d + 1 < max
    ensures RecordedWithin(Record(h, max, v, r), content, d + 1)
  {
    RecordShape(h, max, v, r);
    var last := v.(no := LastNo(h) + 1);
    if r.RecordedOk? {
      SurvivorsKeepWithin(h, max, r.cut, content, d);
      AppendKeepsWithin(Survivors(h, max, r.cut), last, content, d);
    } else {
      AppendKeepsWithin(h, last, content, d);
    }
  }

  lemma RecordSays(h: seq<Version>, max: nat, v: Version, r: Recording)
    requires !r.NotRecorded? && Restorable(v)
    ensures RecordedWithin(Record(h, max, v, r), v.content, 0)
  {
    RecordShape(h, max, v, r);
    var h' := Record(h, max, v, r);
    assert h'[|h'| - 1] == v.(no := LastNo(h) + 1);
  }

  lemma ChangeBehind(s: State, max: nat, v: Version, content: Option<string>, r: Recording, w: Writing, d: nat)
    requires Behind(s, d) && Says(v, content) && Tolerable(max, r, w, d)
    requires s.live.None? || s.history != [] || content == s.live
    ensures Behind(Changed(s, max, v, content, r, w), ChangeDepth(r, w, d))
  {
    if !r.NotRecorded? {
      if content.Some? {
        RecordSays(s.history, max, v, r);
      }
      if s.live.Some? && s.history != [] && !(r.RecordedOk? && !w.NotWritten?) {
        RecordKeepsWithin(s.history, max, v, r, s.live.value, d);
      }
    }
  }

  /** A create over a live rule that nobody recorded must not change it. */
  predicate Careful(s: State, c: Call)
  {
    c.Create? ==> s.live.None? || s.history != [] || s.live.value == c.content
  }

  /** How far behind the live rule is when the call's own change comes: a baseline catches up. */
  function BaseDepth(s: State, c: Call, d: nat): nat
  {
    if (c.Update? || c.Delete?) && s.history == [] then 0 else d
  }

  predicate Reaches(s: State, c: Call)
  {
    match c
    case Create(locked, _, _, _) => locked
    case Update(locked, readOk, _, historyOk, b, _, _) =>
      locked && readOk && s.live.Some? && historyOk && BaselineOk(s.history, b)
    case Delete(locked, readOk, historyOk, b, _, _) =>
      locked && readOk && s.live.Some? && historyOk && BaselineOk(s.history, b)
    case RollBack(_, _, _, _, _, _, _, _) => RollbackTarget(s, c).Some?
  }

  /** Asked only of calls that reach their change. */
  predicate TolerableCall(s: State, max: nat, c: Call, d: nat)
  {
    Reaches(s, c) ==> Tolerable(max, c.recording, c.writing, BaseDepth(s, c, d))
  }

  function DepthAfter(s: State, c: Call, d: nat): nat
  {
    if Reaches(s, c) then ChangeDepth(c.recording, c.writing, BaseDepth(s, c, d)) else BaseDepth(s, c, d)
  }

  lemma BaselineBehind(s: State, max: nat, r: Recording, d: nat)
    requires Behind(s, d) && s.live.Some?
    ensures var s1 := s.(history := WithBaseline(s.history, max, s.live.value, r));
            Behind(s1, if s.history == [] then 0 else d) && (BaselineOk(s.history, r) ==> s1.history != [])
  {
    if s.history == [] && !r.NotRecorded? {
      RecordSays([], max, Entry(CREATE, s.live.value, Baseline, None), r);
    }
  }

  lemma StepBehind(s: State, max: nat, c: Call, d: nat)
    requires Behind(s, d) && Careful(s, c) && TolerableCall(s, max, c, d)
    ensures Behind(Next(s, max, c), DepthAfter(s, c, d))
  {
    match c
    case Create(locked, content, r, w) =>
      if locked {
        ChangeBehind(s, max, Entry(CREATE, content, Admin, None), Some(content), r, w, d);
      }
    case Update(_, _, content, _, b, r, w) =>
      if s.live.Some? {
        BaselineBehind(s, max, b, d);
        var s1 := s.(history := WithBaseline(s.history, max, s.live.value, b));
        if Reaches(s, c) {
          ChangeBehind(s1, max, Entry(UPDATE, content, Admin, None), Some(content), r, w, BaseDepth(s, c, d));
        }
      }
    case Delete(_, _, _, b, r, w) =>
      if s.live.Some? {
        BaselineBehind(s, max, b, d);
        var s1 := s.(history := WithBaseline(s.history, max, s.live.value, b));
        if Reaches(s, c) {
          ChangeBehind(s1, max, Tombstone(), None, r, w, BaseDepth(s, c, d));
        }
      }
    case RollBack(_, _, _, _, _, _, r, w) =>
      var target := RollbackTarget(s, c);
      if target.Some? {
        ChangeBehind(s, max, RollbackEntry(s, target.value), Some(target.value.content), r, w, d);
      }
  }

  ghost predicate IsRun(run: seq<State>, max: nat, calls: seq<Call>)
  {
    |run| == |calls| + 1 && forall i :: 0 <= i < |calls| ==> run[i + 1] == Next(run[i], max, calls[i])
  }

  /** How far behind the live rule can be after n calls. */
  ghost function DepthAt(run: seq<State>, calls: seq<Call>, d: nat, n: nat): nat
    requires n <= |calls| && n <= |run|
  {
    if n == 0 then d else DepthAfter(run[n - 1], calls[n - 1], DepthAt(run, calls, d, n - 1))
  }

  lemma {:induction false} RunBehind(run: seq<State>, max: nat, calls: seq<Call>, d: nat, n: nat)
    requires IsRun(run, max, calls) && Behind(run[0], d) && n <= |calls|
    requires forall i :: 0 <= i < |calls| ==> Careful(run[i], calls[i])
    requires forall i :: 0 <= i < |calls| ==> TolerableCall(run[i], max, calls[i], DepthAt(run, calls, d, i))
    ensures Behind(run[n], DepthAt(run, calls, d, n))
  {
    if n > 0 {
      RunBehind(run, max, calls, d, n - 1);
      StepBehind(run[n - 1], max, calls[n - 1], DepthAt(run, calls, d, n - 1));
    }
  }

  /** After any sequence of calls, each failing wherever it may, a non-empty history contains the
      live rule. With retention off nothing else is needed; with a window of max versions, every
      change that is recorded but does not reach the live rule must find it fewer than max - 1
      versions behind. */
  lemma RunKeepsWriteAhead(run: seq<State>, max: nat, calls: seq<Call>, d: nat)
    requires IsRun(run, max, calls) && Behind(run[0], d)
    requires forall i :: 0 <= i < |calls| ==> Careful(run[i], calls[i])
    requires forall i :: 0 <= i < |calls| ==> TolerableCall(run[i], max, calls[i], DepthAt(run, calls, d, i))
    ensures WriteAhead(run[|calls|])
  {
    RunBehind(run, max, calls, d, |calls|);
  }

  /** With retention off, creates over unrecorded live rules aside, nothing can lose the live rule. */
  lemma UnlimitedKeepsWriteAhead(run: seq<State>, calls: seq<Call>)
    requires IsRun(run, 0, calls) && WriteAhead(run[0])
    requires forall i :: 0 <= i < |calls| ==> Careful(run[i], calls[i])
    ensures WriteAhead(run[|calls|])
  {
    assert Behind(run[0], |run[0].history|);
    RunKeepsWriteAhead(run, 0, calls, |run[0].history|);
  }

  // ----------------------------------------- how many misses a window of max tolerates

  const MISS := Update(true, true, "b", true, NotRecorded, RecordedOk(1), NotWritten)

  /** The rule "a", just recorded, after n updates to "b" that are recorded and then fail. */
  ghost function AfterMisses(max: nat, n: nat): State
  {
    if n == 0 then State([Version(1, CREATE, "a", Admin, None)], Some("a"))
    else Next(AfterMisses(max, n - 1), max, MISS)
  }

  lemma MissStep(s: State, max: nat)
    requires s.live == Some("a") && s.history != []
    ensures var v := Version(LastNo(s.history) + 1, UPDATE, "b", Admin, None);
            Next(s, max, MISS) == State(Survivors(s.history, max, 1) + [v], s.live)
  {
    RecordShape(s.history, max, Entry(UPDATE, "b", Admin, None), RecordedOk(1));
  }

  ghost predicate PiledUp(s: State, n: nat)
  {
    && s.live == Some("a")
    && |s.history| == n + 1
    && Restorable(s.history[0]) && s.history[0].content == "a"
    && forall i :: 0 < i < |s.history| ==> s.history[i].content == "b"
  }

  lemma {:induction false} MissesPileUp(max: nat, n: nat)
    requires n < max
    ensures PiledUp(AfterMisses(max, n), n)
  {
    if n > 0 {
      MissesPileUp(max, n - 1);
      MissStep(AfterMisses(max, n - 1), max);
    }
  }

  /** A window of max versions tolerates max - 1 misses in a row and not max. */
  lemma WindowToleratesMisses(max: nat)
    requires max > 0
    ensures forall n :: 0 <= n < max ==> WriteAhead(AfterMisses(max, n))
    ensures !WriteAhead(AfterMisses(max, max))
  {
    forall n | 0 <= n < max ensures WriteAhead(AfterMisses(max, n)) {
      MissesPileUp(max, n);
    }
    MissesPileUp(max, max - 1);
    LastMissLoses(AfterMisses(max, max - 1), max);
  }

  lemma LastMissLoses(s: State, max: nat)
    requires max > 0 && PiledUp(s, max - 1)
    ensures !WriteAhead(Next(s, max, MISS))
  {
    MissStep(s, max);
    assert Survivors(s.history, max, 1) == s.history[1..];
  }

  // ----------------------------------------------------- where it fails, exactly

  /** The change, with its outcome, keeps a live rule recorded: it says the same, or it was written,
      or nothing was recorded, or the version that says it survives. */
  ghost predicate ChangeRecords(s: State, max: nat, v: Version, r: Recording, w: Writing)
  {
    || s.live.None? || (Restorable(v) && v.content == s.live.value)
    || (r.RecordedOk? && !w.NotWritten?) || r.NotRecorded?
    || (s.history != [] && (r.RecordedOk? ==> Recorded(Survivors(s.history, max, r.cut), s.live.value)))
  }

  lemma FirstChangeKeepsIff(s: State, max: nat, v: Version, content: Option<string>, r: Recording, w: Writing)
    requires s.history == [] && s.live.Some? && Says(v, content)
    ensures WriteAhead(Changed(s, max, v, content, r, w)) <==> ChangeRecords(s, max, v, r, w)
  {
    if !r.NotRecorded? {
      FirstRecord(max, v, r);
      assert [v.(no := 1)][0] == v.(no := 1);
    }
  }

  lemma ChangeKeepsIff(s: State, max: nat, v: Version, content: Option<string>, r: Recording, w: Writing)
    requires WriteAhead(s) && Says(v, content)
    ensures WriteAhead(Changed(s, max, v, content, r, w)) <==> ChangeRecords(s, max, v, r, w)
  {
    if s.live.None? {
      ChangeFromNothing(s, max, v, content, r, w);
    } else if s.history == [] {
      FirstChangeKeepsIff(s, max, v, content, r, w);
    } else {
      ChangeKeepsRecordIff(s, max, v, content, r, w);
    }
  }

  /** For each outcome of a create, exactly when it keeps the live rule recorded. */
  lemma CreateKeepsRecordIff(s: State, max: nat, content: string, r: Recording, w: Writing)
    requires WriteAhead(s)
    ensures WriteAhead(Next(s, max, Create(true, content, r, w)))
       <==> ChangeRecords(s, max, Entry(CREATE, content, Admin, None), r, w)
  {
    ChangeKeepsIff(s, max, Entry(CREATE, content, Admin, None), Some(content), r, w);
  }

  /** The call, with its outcome, keeps a live rule recorded. */
  ghost predicate CallRecords(s: State, max: nat, c: Call)
  {
    Reaches(s, c) ==>
      match c
      case Create(_, content, r, w) => ChangeRecords(s, max, Entry(CREATE, content, Admin, None), r, w)
      case Update(_, _, content, _, _, r, w) =>
        ChangeRecords(WithOwnBaseline(s, max), max, Entry(UPDATE, content, Admin, None), r, w)
      case Delete(_, _, _, _, r, w) => ChangeRecords(WithOwnBaseline(s, max), max, Tombstone(), r, w)
      case RollBack(_, _, _, _, _, _, r, w) =>
        ChangeRecords(s, max, RollbackEntry(s, RollbackTarget(s, c).value), r, w)
  }

  /** Exactly which calls keep the live rule recorded, whatever the window. */
  lemma CallKeepsRecordIff(s: State, max: nat, c: Call)
    requires WriteAhead(s)
    ensures WriteAhead(Next(s, max, c)) <==> CallRecords(s, max, c)
  {
    match c
    case Create(_, content, r, w) => CreateKeepsRecordIff(s, max, content, r, w);
    case Update(_, _, content, _, b, r, w) =>
      if s.live.Some? {
        BaselineIsEither(s, max, b);
        BaselineIsEither(s, max, RecordedOk(0));
        ChangeKeepsIff(WithOwnBaseline(s, max), max, Entry(UPDATE, content, Admin, None), Some(content), r, w);
      }
    case Delete(_, _, _, b, r, w) =>
      if s.live.Some? {
        BaselineIsEither(s, max, b);
        BaselineIsEither(s, max, RecordedOk(0));
        ChangeKeepsIff(WithOwnBaseline(s, max), max, Tombstone(), None, r, w);
      }
    case RollBack(_, _, _, _, _, _, r, w) =>
      var target := RollbackTarget(s, c);
      if target.Some? {
        ChangeKeepsIff(s, max, RollbackEntry(s, target.value), Some(target.value.content), r, w);
      }
  }

  lemma {:induction false} RunRecords(run: seq<State>, max: nat, calls: seq<Call>, n: nat)
    requires IsRun(run, max, calls) && WriteAhead(run[0]) && n <= |calls|
    requires forall i :: 0 <= i < n ==> CallRecords(run[i], max, calls[i])
    ensures forall i :: 0 <= i <= n ==> WriteAhead(run[i])
  {
    if n > 0 {
      RunRecords(run, max, calls, n - 1);
      CallKeepsRecordIff(run[n - 1], max, calls[n - 1]);
    }
  }

  /** Over every run, at any window: the live rule is recorded in every state exactly when every
      call keeps it. */
  lemma RunKeepsRecordIff(run: seq<State>, max: nat, calls: seq<Call>)
    requires IsRun(run, max, calls) && WriteAhead(run[0])
    ensures (forall i :: 0 <= i < |run| ==> WriteAhead(run[i]))
       <==> (forall i :: 0 <= i < |calls| ==> CallRecords(run[i], max, calls[i]))
  {
    if forall i :: 0 <= i < |calls| ==> CallRecords(run[i], max, calls[i]) {
      RunRecords(run, max, calls, |calls|);
    }
    if forall i :: 0 <= i < |run| ==> WriteAhead(run[i]) {
      forall i | 0 <= i < |calls| ensures CallRecords(run[i], max, calls[i]) {
        assert WriteAhead(run[i]) && WriteAhead(run[i + 1]);
        CallKeepsRecordIff(run[i], max, calls[i]);
      }
    }
  }

  /** Checked before the call: the window keeps the version that records the live rule. */
  ghost predicate WindowKeeps(h: seq<Version>, max: nat, content: string)
  {
    max == 0 || |h| < max || Recorded(h[|h| - (max - 1)..], content)
  }

  /** Whatever is removed, the newest max - 1 versions survive. */
  lemma SurvivorsKeepNewest(h: seq<Version>, max: nat, cut: nat, content: string)
    requires 0 < max <= |h| && Recorded(h[|h| - (max - 1)..], content)
    ensures Recorded(Survivors(h, max, cut), content)
  {
    var beyond := |h| + 1 - max;
    var c := if cut < beyond then cut else beyond;
    RecordedConcat(h[..beyond - c], h[beyond..], content);
  }

  /** Exactly when a change of a live, recorded rule is safe whatever fails. */
  lemma ChangeIsSafeIff(s: State, max: nat, v: Version, content: Option<string>)
    requires WriteAhead(s) && s.history != [] && s.live.Some? && Says(v, content)
    ensures (forall r, w :: WriteAhead(Changed(s, max, v, content, r, w)))
       <==> (Restorable(v) && v.content == s.live.value) || WindowKeeps(s.history, max, s.live.value)
  {
    var h, live := s.history, s.live.value;
    if (Restorable(v) && v.content == live) || WindowKeeps(h, max, live) {
      forall r, w ensures WriteAhead(Changed(s, max, v, content, r, w)) {
        ChangeKeepsRecordIff(s, max, v, content, r, w);
        if r.RecordedOk? && 0 < max <= |h| && !(Restorable(v) && v.content == live) {
          SurvivorsKeepNewest(h, max, r.cut, live);
        }
      }
    } else {
      var r := RecordedOk(|h|);
      SurvivorsAreNewest(h, max, |h|);
      ChangeKeepsRecordIff(s, max, v, content, r, NotWritten);
      assert !WriteAhead(Changed(s, max, v, content, r, NotWritten));
    }
  }

  /** Exactly when a create keeps the live rule recorded whatever fails. */
  lemma CreateIsSafeIff(s: State, max: nat, content: string)
    requires WriteAhead(s)
    ensures (forall r, w :: WriteAhead(Next(s, max, Create(true, content, r, w))))
       <==> || s.live.None? || s.live.value == content
            || (s.history != [] && WindowKeeps(s.history, max, s.live.value))
  {
    var v := Entry(CREATE, content, Admin, None);
    assert forall r, w ::
      Next(s, max, Create(true, content, r, w)) == Changed(s, max, v, Some(content), r, w);
    if s.live.None? {
      forall r, w ensures WriteAhead(Next(s, max, Create(true, content, r, w))) {
        ChangeFromNothing(s, max, v, Some(content), r, w);
      }
    } else if s.history != [] {
      ChangeIsSafeIff(s, max, v, Some(content));
      assert (forall r, w :: WriteAhead(Next(s, max, Create(true, content, r, w))))
        <==> (forall r, w :: WriteAhead(Changed(s, max, v, Some(content), r, w)));
    } else {
      FirstCreateIsSafeIff(s, max, content);
    }
  }

  lemma FirstRecord(max: nat, v: Version, r: Recording)
    requires !r.NotRecorded?
    ensures Record([], max, v, r) == [v.(no := 1)]
  {
    RecordShape([], max, v, r);
  }

  lemma FirstCreateIsSafeIff(s: State, max: nat, content: string)
    requires s.history == [] && s.live.Some?
    ensures (forall r, w :: WriteAhead(Next(s, max, Create(true, content, r, w)))) <==> s.live.value == content
  {
    var v := Entry(CREATE, content, Admin, None);
    forall r, w
      ensures s.live.value == content ==> WriteAhead(Next(s, max, Create(true, content, r, w)))
    {
      if !r.NotRecorded? {
        FirstRecord(max, v, r);
        assert Restorable([v.(no := 1)][0]);
      }
    }
    if s.live.value != content {
      FirstRecord(max, v, RecordedOk(0));
      assert !WriteAhead(Next(s, max, Create(true, content, RecordedOk(0), NotWritten)));
    }
  }

  /** The rule as its own change will find it: with its baseline, if there was no history. */
  function WithOwnBaseline(s: State, max: nat): State
    requires s.live.Some?
  {
    s.(history := WithBaseline(s.history, max, s.live.value, RecordedOk(0)))
  }

  lemma BaselineIsEither(s: State, max: nat, b: Recording)
    requires WriteAhead(s) && s.live.Some?
    ensures var h := WithBaseline(s.history, max, s.live.value, b);
            && (h == s.history || h == WithOwnBaseline(s, max).history)
            && WriteAhead(s.(history := h))
            && (BaselineOk(s.history, b) ==> h == WithOwnBaseline(s, max).history && h != [])
  {
    if s.history == [] {
      var v := Entry(CREATE, s.live.value, Baseline, None);
      FirstRecord(max, v, RecordedOk(0));
      assert Restorable([v.(no := 1)][0]);
      if !b.NotRecorded? {
        FirstRecord(max, v, b);
      }
    }
  }

  /** An update or a delete stops early, after its baseline, or ends like its change. */
  lemma UpdateEnds(s: State, max: nat, c: Call)
    requires WriteAhead(s) && s.live.Some? && c.Update?
    ensures var v := Entry(UPDATE, c.content, Admin, None);
            var t := Changed(WithOwnBaseline(s, max), max, v, Some(c.content), c.recording, c.writing);
            Next(s, max, c) == t || WriteAhead(Next(s, max, c))
  {
    BaselineIsEither(s, max, c.baseline);
  }

  lemma DeleteEnds(s: State, max: nat, c: Call)
    requires WriteAhead(s) && s.live.Some? && c.Delete?
    ensures var v := Tombstone();
            var t := Changed(WithOwnBaseline(s, max), max, v, None, c.recording, c.writing);
            Next(s, max, c) == t || WriteAhead(Next(s, max, c))
  {
    BaselineIsEither(s, max, c.baseline);
  }

  lemma UpdateLoses(s: State, max: nat, content: string, r: Recording, w: Writing)
    requires s.live.Some?
    requires var v := Entry(UPDATE, content, Admin, None);
             !WriteAhead(Changed(WithOwnBaseline(s, max), max, v, Some(content), r, w))
    ensures !WriteAhead(Next(s, max, Update(true, true, content, true, RecordedOk(0), r, w)))
  {
  }

  /** Exactly when an update keeps the live rule recorded whatever fails. */
  lemma UpdateIsSafeIff(s: State, max: nat, content: string)
    requires WriteAhead(s) && s.live.Some?
    ensures (forall locked, readOk, historyOk, b, r, w ::
               WriteAhead(Next(s, max, Update(locked, readOk, content, historyOk, b, r, w))))
       <==> content == s.live.value || WindowKeeps(WithOwnBaseline(s, max).history, max, s.live.value)
  {
    var s1, v := WithOwnBaseline(s, max), Entry(UPDATE, content, Admin, None);
    BaselineIsEither(s, max, RecordedOk(0));
    ChangeIsSafeIff(s1, max, v, Some(content));
    if content == s.live.value || WindowKeeps(s1.history, max, s.live.value) {
      forall locked, readOk, historyOk, b, r, w
        ensures WriteAhead(Next(s, max, Update(locked, readOk, content, historyOk, b, r, w)))
      {
        UpdateEnds(s, max, Update(locked, readOk, content, historyOk, b, r, w));
      }
    } else {
      var r, w :| !WriteAhead(Changed(s1, max, v, Some(content), r, w));
      UpdateLoses(s, max, content, r, w);
    }
  }

  lemma DeleteLoses(s: State, max: nat, r: Recording, w: Writing)
    requires s.live.Some? && !WriteAhead(Changed(WithOwnBaseline(s, max), max, Tombstone(), None, r, w))
    ensures !WriteAhead(Next(s, max, Delete(true, true, true, RecordedOk(0), r, w)))
  {
  }

  /** Exactly when a delete does. */
  lemma DeleteIsSafeIff(s: State, max: nat)
    requires WriteAhead(s) && s.live.Some?
    ensures (forall locked, readOk, historyOk, b, r, w ::
               WriteAhead(Next(s, max, Delete(locked, readOk, historyOk, b, r, w))))
       <==> WindowKeeps(WithOwnBaseline(s, max).history, max, s.live.value)
  {
    var s1, v := WithOwnBaseline(s, max), Tombstone();
    BaselineIsEither(s, max, RecordedOk(0));
    ChangeIsSafeIff(s1, max, v, None);
    if WindowKeeps(s1.history, max, s.live.value) {
      forall locked, readOk, historyOk, b, r, w
        ensures WriteAhead(Next(s, max, Delete(locked, readOk, historyOk, b, r, w)))
      {
        DeleteEnds(s, max, Delete(locked, readOk, historyOk, b, r, w));
      }
    } else {
      var r, w :| !WriteAhead(Changed(s1, max, v, None, r, w));
      DeleteLoses(s, max, r, w);
    }
  }

  /** A rollback that nothing stops before it is recorded. */
  function Attempt(reason: string, no: int, r: Recording, w: Writing): Call
  {
    RollBack(true, reason, no, true, true, true, r, w)
  }

  /** Exactly when a rollback does, unless it is refused. */
  lemma RollbackIsSafeIff(s: State, max: nat, reason: string, no: int, target: Version)
    requires WriteAhead(s) && !Text.Blank(reason)
    requires Find(s.history, no) == Some(target) && Restorable(target) && s.live != Some(target.content)
    ensures (forall r, w :: WriteAhead(Next(s, max, Attempt(reason, no, r, w))))
       <==> s.live.None? || WindowKeeps(s.history, max, s.live.value)
  {
    var v, content := RollbackEntry(s, target), Some(target.content);
    forall r, w
      ensures Next(s, max, Attempt(reason, no, r, w)) == Changed(s, max, v, content, r, w)
      ensures s.live.None? ==> WriteAhead(Changed(s, max, v, content, r, w))
    {
      if s.live.None? {
        ChangeFromNothing(s, max, v, content, r, w);
      }
    }
    if s.live.Some? {
      ChangeIsSafeIff(s, max, v, content);
      assert (forall r, w :: WriteAhead(Next(s, max, Attempt(reason, no, r, w))))
        <==> (forall r, w :: WriteAhead(Changed(s, max, v, content, r, w)));
    }
  }

  lemma CreateOverLiveLosesIt()
    ensures var s := State([], Some("a"));
            WriteAhead(s) && !WriteAhead(Next(s, 0, Create(true, "b", RecordedOk(0), NotWritten)))
  {
    FirstRecord(0, Entry(CREATE, "b", Admin, None), RecordedOk(0));
  }

  /** With the whole excess removed, exactly the newest max - 1 earlier versions survive. */
  lemma SurvivorsAreNewest(h: seq<Version>, max: nat, cut: nat)
    requires 0 < max <= |h| && cut >= |h| + 1 - max
    ensures Survivors(h, max, cut) == h[|h| - (max - 1)..]
  {
  }

  /** With a window of one version, a failed update leaves a live rule that is not recorded. */
  lemma RetentionLosesLive()
    ensures var s := State([Version(1, CREATE, "a", Admin, None)], Some("a"));
            && WriteAhead(s)
            && !WriteAhead(Next(s, 1, Update(true, true, "b", true, NotRecorded, RecordedOk(1), NotWritten)))
  {
    var v := Version(1, CREATE, "a", Admin, None);
    var s := State([v], Some("a"));
    assert Restorable(s.history[0]);
    SurvivorsAreNewest(s.history, 1, 1);
    ChangeKeepsRecordIff(s, 1, Entry(UPDATE, "b", Admin, None), Some("b"), RecordedOk(1), NotWritten);
  }

  // --------------------------------------------------------------------- numbering

  /** Later histories only add versions with higher numbers. */
  ghost predicate Extends(h: seq<Version>, h': seq<Version>)
  {
    && Increasing(h') && LastNo(h) <= LastNo(h') && (h != [] ==> h' != [])
    && forall v :: v in h' ==> v in h || v.no > LastNo(h)
  }

  /** Versions of h, in order. */
  ghost predicate PartOf(kept: seq<Version>, h: seq<Version>)
  {
    Increasing(kept) && forall i :: 0 <= i < |kept| ==> kept[i] in h && kept[i].no <= LastNo(h)
  }

  lemma InOrder(h: seq<Version>, v: Version)
    requires Increasing(h) && v in h
    ensures v.no <= LastNo(h)
  {
    var j :| 0 <= j < |h| && h[j] == v;
  }

  lemma SurvivorsArePart(h: seq<Version>, max: nat, cut: nat)
    requires Increasing(h)
    ensures PartOf(h, h) && PartOf(Survivors(h, max, cut), h)
  {
    var kept := Survivors(h, max, cut);
    assert Increasing(kept);
    forall i | 0 <= i < |kept| ensures kept[i] in h && kept[i].no <= LastNo(h) {
      InOrder(h, kept[i]);
    }
  }

  lemma PartExtends(h: seq<Version>, kept: seq<Version>, last: Version)
    requires PartOf(kept, h) && last.no == LastNo(h) + 1
    ensures Extends(h, kept + [last])
  {
    var h' := kept + [last];
    forall v | v in h' ensures v in h || v.no > LastNo(h) {
      var i :| 0 <= i < |h'| && h'[i] == v;
      if i < |kept| {
        assert kept[i] == v;
      }
    }
  }

  lemma RecordExtends(h: seq<Version>, max: nat, v: Version, r: Recording)
    requires Increasing(h)
    ensures Extends(h, Record(h, max, v, r))
  {
    if !r.NotRecorded? {
      RecordShape(h, max, v, r);
      SurvivorsArePart(h, max, if r.RecordedOk? then r.cut else 0);
      PartExtends(h, if r.RecordedOk? then Survivors(h, max, r.cut) else h, v.(no := LastNo(h) + 1));
    }
  }

  lemma ExtendsTransitive(a: seq<Version>, b: seq<Version>, c: seq<Version>)
    requires Extends(a, b) && Extends(b, c)
    ensures Extends(a, c)
  {
  }

  /** A change after its baseline. */
  lemma BaselinedExtends(h: seq<Version>, max: nat, content: string, b: Recording, v: Version, r: Recording)
    requires Increasing(h)
    ensures var h1 := WithBaseline(h, max, content, b);
            Extends(h, h1) && Extends(h, Record(h1, max, v, r))
  {
    var h1 := WithBaseline(h, max, content, b);
    RecordExtends(h, max, Entry(CREATE, content, Baseline, None), b);
    RecordExtends(h1, max, v, r);
    ExtendsTransitive(h, h1, Record(h1, max, v, r));
  }

  lemma StepExtends(s: State, max: nat, c: Call)
    requires Increasing(s.history)
    ensures Extends(s.history, Next(s, max, c).history)
  {
    match c
    case Create(_, content, r, _) => RecordExtends(s.history, max, Entry(CREATE, content, Admin, None), r);
    case Update(_, _, content, _, b, r, _) =>
      if s.live.Some? {
        BaselinedExtends(s.history, max, s.live.value, b, Entry(UPDATE, content, Admin, None), r);
      }
    case Delete(_, _, _, b, r, _) =>
      if s.live.Some? {
        BaselinedExtends(s.history, max, s.live.value, b, Tombstone(), r);
      }
    case RollBack(_, _, _, _, _, _, r, _) =>
      var target := RollbackTarget(s, c);
      if target.Some? {
        RecordExtends(s.history, max, RollbackEntry(s, target.value), r);
      }
  }

  lemma {:induction false} RunExtends(run: seq<State>, max: nat, calls: seq<Call>)
    requires IsRun(run, max, calls) && Increasing(run[0].history)
    ensures Extends(run[0].history, run[|calls|].history)
    decreases |calls|
  {
    if calls != [] {
      var n := |calls| - 1;
      RunExtends(run[..n + 1], max, calls[..n]);
      StepExtends(run[n], max, calls[n]);
      ExtendsTransitive(run[0].history, run[n].history, run[n + 1].history);
    }
  }

  /** A version number means one version for good, whatever retention removes. */
  lemma NumbersAreNeverReused(run: seq<State>, max: nat, calls: seq<Call>, u: Version, v: Version)
    requires IsRun(run, max, calls) && Increasing(run[0].history)
    requires u in run[0].history && v in run[|calls|].history && u.no == v.no
    ensures u == v
  {
    RunExtends(run, max, calls);
    var h := run[0].history;
    var i :| 0 <= i < |h| && h[i] == u;
    assert u.no <= LastNo(h);
    var j :| 0 <= j < |h| && h[j] == v;
  }

  /** Without retention the history only grows at its end. */
  lemma {:induction false} HistoryIsAppendOnly(run: seq<State>, calls: seq<Call>)
    requires IsRun(run, 0, calls)
    ensures run[0].history <= run[|calls|].history
    decreases |calls|
  {
    if calls != [] {
      var n := |calls| - 1;
      HistoryIsAppendOnly(run[..n + 1], calls[..n]);
      assert run[n].history <= Next(run[n], 0, calls[n]).history;
    }
  }

  // --------------------------------------------------------------- after a success

  lemma {:induction false} FindMeans(h: seq<Version>, no: int)
    ensures Find(h, no).Some? <==> exists i :: 0 <= i < |h| && h[i].no == no
    ensures Find(h, no).Some? ==> Find(h, no).value in h && Find(h, no).value.no == no
  {
    if h != [] {
      var n := |h| - 1;
      FindMeans(h[..n], no);
      if h[n].no != no && exists i :: 0 <= i < |h| && h[i].no == no {
        var i :| 0 <= i < |h| && h[i].no == no;
        assert h[..n][i].no == no;
      }
    }
  }

  lemma {:induction false} FindFinds(h: seq<Version>, i: nat)
    requires Increasing(h) && i < |h|
    ensures Find(h, h[i].no) == Some(h[i])
  {
    var n := |h| - 1;
    if i < n {
      FindFinds(h[..n], i);
    }
  }

  /** Nothing goes wrong before the live write; a baseline only matters when there is no history. */
  predicate GoesWell(s: State, c: Call)
  {
    && c.locked && c.recording.RecordedOk?
    && (c.RollBack? ==> c.targetOk && c.readOk && c.rebuildOk)
    && (c.Update? || c.Delete? ==> c.readOk && c.historyOk && (s.history != [] || c.baseline.RecordedOk?))
  }

  /** A version that a rollback to that number would bring back. */
  ghost predicate CanReturnTo(s: State, no: int)
  {
    exists v :: v in s.history && v.no == no && (v.op == CREATE || v.op == UPDATE) && s.live != Some(v.content)
  }

  /** What the rule must be for the call to make sense. */
  ghost predicate Applies(s: State, c: Call)
  {
    match c
    case Create(_, _, _, _) => true
    case Update(_, _, _, _, _, _, _) => s.live.Some?
    case Delete(_, _, _, _, _, _) => s.live.Some?
    case RollBack(_, reason, target, _, _, _, _, _) => !Text.Blank(reason) && CanReturnTo(s, target)
  }

  lemma TargetIff(s: State, c: Call)
    requires Increasing(s.history) && c.RollBack?
    ensures RollbackTarget(s, c).Some? <==> c.locked && c.targetOk && c.readOk && c.rebuildOk && Applies(s, c)
    ensures RollbackTarget(s, c).Some? ==>
      RollbackTarget(s, c).value in s.history && RollbackTarget(s, c).value.no == c.target
  {
    FindMeans(s.history, c.target);
    if CanReturnTo(s, c.target) {
      var v :| v in s.history && v.no == c.target && (v.op == CREATE || v.op == UPDATE) && s.live != Some(v.content);
      var i :| 0 <= i < |s.history| && s.history[i] == v;
      FindFinds(s.history, i);
    }
  }

  /** A call reports success exactly when it applies and nothing goes wrong, except that deleting a
      rule that is not live succeeds too, and changes nothing. */
  lemma SucceedsIff(s: State, max: nat, c: Call)
    requires Increasing(s.history)
    ensures Succeeds(s, c)
       <==> || (Applies(s, c) && GoesWell(s, c) && c.writing.WrittenOk?)
            || (c.Delete? && s.live.None? && c.locked && c.readOk)
    ensures !Applies(s, c) || !c.locked ==> Next(s, max, c) == s
  {
    if c.RollBack? {
      TargetIff(s, c);
    }
  }

  /** What the latest version says of a successful call: who made it, from what, and what it is. */
  ghost predicate RecordsCall(s: State, c: Call, head: Version)
  {
    match c
    case Create(_, content, _, _) =>
      head.op == CREATE && head.source == Admin && head.rolledBackFrom == None && head.content == content
    case Update(_, _, content, _, _, _, _) =>
      head.op == UPDATE && head.source == Admin && head.rolledBackFrom == None && head.content == content
    case Delete(_, _, _, _, _, _) =>
      head.op == DELETE && head.source == Admin && head.rolledBackFrom == None && head.content == "{}"
    case RollBack(_, _, target, _, _, _, _, _) =>
      && head.op == (if s.live.Some? then UPDATE else CREATE)
      && head.source == Rollback && head.rolledBackFrom == Some(target)
      && exists v :: v in s.history && v.no == target && v.content == head.content
  }

  /** The history a change is added to: a rule edited for the first time has its old content on
      record as version 1, as imported. */
  function BeforeChange(s: State): seq<Version>
    requires s.live.Some?
  {
    if s.history == [] then [Version(1, CREATE, s.live.value, Baseline, None)] else s.history
  }

  lemma BaselineIs(s: State, max: nat, b: Recording)
    requires s.live.Some? && BaselineOk(s.history, b)
    ensures WithBaseline(s.history, max, s.live.value, b) == BeforeChange(s)
  {
    if s.history == [] {
      FirstRecord(max, Entry(CREATE, s.live.value, Baseline, None), b);
    }
  }

  lemma BaselinedShape(s: State, max: nat, b: Recording, v: Version, r: Recording)
    requires s.live.Some? && BaselineOk(s.history, b) && r.RecordedOk?
    ensures var h := BeforeChange(s);
            Record(WithBaseline(s.history, max, s.live.value, b), max, v, r)
            == Survivors(h, max, r.cut) + [v.(no := LastNo(h) + 1)]
  {
    BaselineIs(s, max, b);
    RecordShape(BeforeChange(s), max, v, r);
  }

  /** The latest version records a call that goes well, under the next number. */
  lemma CallIsRecorded(s: State, max: nat, c: Call)
    requires Increasing(s.history) && Applies(s, c) && GoesWell(s, c)
    ensures var s' := Next(s, max, c);
            && s'.history != []
            && var head := s'.history[|s'.history| - 1];
            && RecordsCall(s, c, head)
            && head.no == LastNo(s.history) + (if (c.Update? || c.Delete?) && s.history == [] then 2 else 1)
            && s'.live == (if c.writing.NotWritten? then s.live else if c.Delete? then None else Some(head.content))
  {
    match c
    case Create(_, content, r, _) => RecordShape(s.history, max, Entry(CREATE, content, Admin, None), r);
    case Update(_, _, content, _, b, r, _) =>
      BaselinedShape(s, max, b, Entry(UPDATE, content, Admin, None), r);
    case Delete(_, _, _, b, r, _) => BaselinedShape(s, max, b, Tombstone(), r);
    case RollBack(_, _, _, _, _, _, r, _) =>
      TargetIff(s, c);
      RecordShape(s.history, max, RollbackEntry(s, RollbackTarget(s, c).value), r);
  }

  /** The live rule is never ahead of the record: it is written only after the call was recorded
      without error, to what the latest version says, and otherwise left alone. */
  lemma LiveFollowsRecord(s: State, max: nat, c: Call)
    requires Increasing(s.history)
    ensures var s' := Next(s, max, c);
            if Applies(s, c) && GoesWell(s, c) && !c.writing.NotWritten?
            then && s'.history != [] && RecordsCall(s, c, s'.history[|s'.history| - 1])
                 && s'.live == (if c.Delete? then None else Some(s'.history[|s'.history| - 1].content))
            else s'.live == s.live
  {
    if Applies(s, c) && GoesWell(s, c) {
      CallIsRecorded(s, max, c);
    } else if c.RollBack? {
      TargetIff(s, c);
    }
  }

  /** After a success the latest version records the call, and the live rule is what it says. */
  lemma SuccessAgrees(s: State, max: nat, c: Call)
    requires Increasing(s.history) && Succeeds(s, c) && (c.Delete? ==> s.live.Some?)
    ensures var s' := Next(s, max, c);
            && s'.history != [] && s'.history[|s'.history| - 1].no > LastNo(s.history)
            && RecordsCall(s, c, s'.history[|s'.history| - 1])
            && s'.live == (if c.Delete? then None else Some(s'.history[|s'.history| - 1].content))
  {
    SucceedsIff(s, max, c);
    CallIsRecorded(s, max, c);
  }

  /** A successful update or delete keeps the earlier versions that retention leaves, the imported
      one included. */
  lemma ChangeKeepsEarlier(s: State, max: nat, c: Call)
    requires (c.Update? || c.Delete?) && s.live.Some? && Succeeds(s, c)
    ensures var h := Next(s, max, c).history;
            h != [] && h[..|h| - 1] == Survivors(BeforeChange(s), max, c.recording.cut)
  {
    var v := if c.Update? then Entry(UPDATE, c.content, Admin, None) else Tombstone();
    BaselinedShape(s, max, c.baseline, v, c.recording);
  }

  /** A complete trim leaves exactly the newest max versions, the new one among them. */
  lemma RetentionKeepsNewest(h: seq<Version>, max: nat, v: Version, cut: nat)
    requires max > 0 && cut >= |h|
    ensures var all := h + [v.(no := LastNo(h) + 1)];
            Record(h, max, v, RecordedOk(cut)) == if |all| <= max then all else all[|all| - max..]
  {
    RecordShape(h, max, v, RecordedOk(cut));
  }

  /** A trim that stops early has removed the newest versions beyond the window, and kept the oldest. */
  lemma RetainKeepsIff(h: seq<Version>, max: nat, cut: nat, i: nat)
    requires Increasing(h) && max > 0 && i < |h|
    ensures h[i] in Retain(h, max, cut) <==> i >= |h| - max || i < |h| - max - cut
  {
    var kept := Retain(h, max, cut);
    if |h| > max {
      var beyond := |h| - max;
      var c := if cut < beyond then cut else beyond;
      if i < beyond - c {
        assert kept[i] == h[i];
      } else if i >= beyond {
        assert kept[i - c] == h[i];
      } else if h[i] in kept {
        var j :| 0 <= j < |kept| && kept[j] == h[i];
        assert kept[j] == h[if j < beyond - c then j else j + c];
      }
    }
  }

  /** Every recorded content can be brought back, and doing so is itself recorded. */
  lemma RollbackRestores(s: State, max: nat, i: nat, reason: string, cut: nat)
    requires Increasing(s.history) && i < |s.history| && !Text.Blank(reason)
    requires Restorable(s.history[i]) && s.live != Some(s.history[i].content)
    ensures var v := s.history[i];
            var c := RollBack(true, reason, v.no, true, true, true, RecordedOk(cut), WrittenOk);
            && Succeeds(s, c)
            && Next(s, max, c).live == Some(v.content)
            && exists head :: head in Next(s, max, c).history && RecordsCall(s, c, head) && head.content == v.content
  {
    var v := s.history[i];
    var c := RollBack(true, reason, v.no, true, true, true, RecordedOk(cut), WrittenOk);
    FindFinds(s.history, i);
    SuccessAgrees(s, max, c);
    var h := Next(s, max, c).history;
    assert h[|h| - 1] in h;
  }

  lemma RestoredWasRecorded(s: State, max: nat, c: Call)
    requires c.RollBack? && Next(s, max, c).live.Some? && Next(s, max, c).live != s.live
    ensures Recorded(s.history, Next(s, max, c).live.value)
  {
    var v := RollbackTarget(s, c).value;
    FindMeans(s.history, c.target);
    var i :| 0 <= i < |s.history| && s.history[i] == v;
  }

  /** Some rollback brings the content back. */
  ghost predicate CanRestore(s: State, max: nat, reason: string, content: string)
  {
    exists no, cut :: Next(s, max, Attempt(reason, no, RecordedOk(cut), WrittenOk)).live == Some(content)
  }

  /** A rollback can bring back exactly what is recorded. */
  lemma CanRestoreIff(s: State, max: nat, reason: string, content: string)
    requires Increasing(s.history) && !Text.Blank(reason) && s.live != Some(content)
    ensures CanRestore(s, max, reason, content) <==> Recorded(s.history, content)
  {
    if CanRestore(s, max, reason, content) {
      var no, cut :| Next(s, max, Attempt(reason, no, RecordedOk(cut), WrittenOk)).live == Some(content);
      RestoredWasRecorded(s, max, Attempt(reason, no, RecordedOk(cut), WrittenOk));
    }
    if Recorded(s.history, content) {
      var i :| 0 <= i < |s.history| && Restorable(s.history[i]) && s.history[i].content == content;
      RollbackRestores(s, max, i, reason, 0);
      assert Next(s, max, Attempt(reason, s.history[i].no, RecordedOk(0), WrittenOk)).live == Some(content);
    }
  }

  lemma UpdateLeaves(s: State, max: nat, c: Call)
    requires WriteAhead(s) && c.Update? && Succeeds(s, c)
    ensures var h := WithOwnBaseline(s, max).history;
            var last := Version(LastNo(h) + 1, UPDATE, c.content, Admin, None);
            Next(s, max, c) == State(Survivors(h, max, c.recording.cut) + [last], Some(c.content))
  {
    BaselineIsEither(s, max, c.baseline);
    RecordShape(WithOwnBaseline(s, max).history, max, Entry(UPDATE, c.content, Admin, None), c.recording);
  }

  /** A successful update can be undone by a rollback exactly when retention left a version with the
      old content, as it always does when the window keeps it. */
  lemma UpdateIsUndoneIff(s: State, max: nat, c: Call, reason: string)
    requires Increasing(s.history) && WriteAhead(s) && !Text.Blank(reason)
    requires c.Update? && Succeeds(s, c) && s.live != Some(c.content)
    ensures CanRestore(Next(s, max, c), max, reason, s.live.value)
       <==> Recorded(Survivors(WithOwnBaseline(s, max).history, max, c.recording.cut), s.live.value)
    ensures WindowKeeps(WithOwnBaseline(s, max).history, max, s.live.value)
        ==> CanRestore(Next(s, max, c), max, reason, s.live.value)
  {
    var s', h, live := Next(s, max, c), WithOwnBaseline(s, max).history, s.live.value;
    var last := Version(LastNo(h) + 1, UPDATE, c.content, Admin, None);
    StepExtends(s, max, c);
    UpdateLeaves(s, max, c);
    RecordedConcat(Survivors(h, max, c.recording.cut), [last], live);
    CanRestoreIff(s', max, reason, live);
    BaselineIsEither(s, max, RecordedOk(0));
    WindowSurvives(h, max, c.recording.cut, live);
  }

  lemma WindowSurvives(h: seq<Version>, max: nat, cut: nat, content: string)
    ensures Recorded(h, content) && WindowKeeps(h, max, content) ==> Recorded(Survivors(h, max, cut), content)
  {
    if 0 < max <= |h| && WindowKeeps(h, max, content) {
      SurvivorsKeepNewest(h, max, cut, content);
    }
  }
}
