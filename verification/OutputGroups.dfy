/** Output channels grouped by timer: run-length grouping, instance ranges and label numbers. */
module OutputGroups {
  import opened Collections

  datatype Error = NoChannels | UnknownTimer | MixedTypes | UnsupportedType | MissingType

  datatype Result<T> = Failed(e: Error) | Ok(value: T)

  // ---- run-length grouping

  datatype Run<T> = Run(key: T, count: nat)

  function Repeat<T>(key: T, count: nat): seq<T> {
    seq(count, i => key)
  }

  function Expand<T>(runs: seq<Run<T>>): seq<T> {
    if runs == [] then [] else Expand(runs[..|runs| - 1]) + Repeat(runs[|runs| - 1].key, runs[|runs| - 1].count)
  }

  function Runs<T(==)>(s: seq<T>): seq<Run<T>> {
    if s == [] then []
    else
      var n := |s| - 1;
      var runs := Runs(s[..n]);
      var last := |runs| - 1;
      if runs != [] && runs[last].key == s[n] then runs[..last] + [Run(s[n], runs[last].count + 1)]
      else runs + [Run(s[n], 1)]
  }

  predicate Maximal<T(==)>(runs: seq<Run<T>>) {
    && (forall i :: 0 <= i < |runs| ==> runs[i].count > 0)
    && (forall i :: 0 < i < |runs| ==> runs[i - 1].key != runs[i].key)
  }

  lemma {:induction false} ExpandSnoc<T>(runs: seq<Run<T>>, run: Run<T>)
    ensures Expand(runs + [run]) == Expand(runs) + Repeat(run.key, run.count)
  {
  }

  /** Growing the last run by one appends its key. */
  lemma {:induction false} ExpandGrow<T>(runs: seq<Run<T>>, key: T, count: nat)
    ensures Expand(runs + [Run(key, count + 1)]) == Expand(runs + [Run(key, count)]) + [key]
  {
  }

  lemma {:induction false} MaximalGrow<T>(runs: seq<Run<T>>, key: T, count: nat)
    requires Maximal(runs + [Run(key, count)])
    ensures Maximal(runs + [Run(key, count + 1)])
  {
    var a, b := runs + [Run(key, count)], runs + [Run(key, count + 1)];
    assert forall i :: 0 <= i < |a| ==> b[i].key == a[i].key && (i < |runs| ==> b[i] == a[i]);
  }

  lemma {:induction false} MaximalAppend<T>(runs: seq<Run<T>>, key: T)
    requires Maximal(runs) && (runs == [] || runs[|runs| - 1].key != key)
    ensures Maximal(runs + [Run(key, 1)])
  {
  }

  /** One more element keeps the runs right. */
  lemma {:induction false} ExpandNext<T>(t: seq<T>, key: T, runs: seq<Run<T>>)
    requires runs == Runs(t) && Expand(runs) == t && Maximal(runs)
    ensures Expand(Runs(t + [key])) == t + [key] && Maximal(Runs(t + [key]))
  {
    var last := |runs| - 1;
    if runs != [] && runs[last].key == key {
      var front, count := runs[..last], runs[last].count;
      assert runs == front + [Run(key, count)];
      RunsMore(t, front, key, count);
      ExpandGrow(front, key, count);
      MaximalGrow(front, key, count);
    } else {
      RunsNew(t, key);
      ExpandSnoc(runs, Run(key, 1));
      assert Repeat(key, 1) == [key];
      MaximalAppend(runs, key);
    }
  }

  /** Expanding the runs gives the list back, and neighbouring runs have different keys. */
  lemma {:induction false} RunsExpand<T>(s: seq<T>)
    ensures Expand(Runs(s)) == s && Maximal(Runs(s))
    decreases |s|
  {
    if s == [] {
    } else {
      var t, key := s[..|s| - 1], s[|s| - 1];
      assert s == t + [key];
      RunsExpand(t);
      ExpandNext(t, key, Runs(t));
    }
  }

  /** They are the only runs of this kind that expand to the list. */
  lemma {:induction false} RunsUnique<T>(runs: seq<Run<T>>)
    requires Maximal(runs)
    ensures Runs(Expand(runs)) == runs
    decreases |Expand(runs)|
  {
    if runs == [] {
    } else {
      var last := |runs| - 1;
      var front, run := runs[..last], runs[last];
      assert runs == front + [run];
      var s := Expand(runs);
      ExpandSnoc(front, run);
      if run.count == 1 {
        assert Repeat(run.key, 1) == [run.key];
        assert s == Expand(front) + [run.key];
        RunsUnique(front);
        RunsNew(Expand(front), run.key);
      } else {
        var shorter := front + [Run(run.key, run.count - 1)];
        ExpandGrow(front, run.key, run.count - 1);
        ShorterMaximal(front, run);
        RunsUnique(shorter);
        RunsMore(Expand(shorter), front, run.key, run.count - 1);
      }
    }
  }

  lemma {:induction false} RunsNew<T>(s: seq<T>, key: T)
    requires Runs(s) == [] || Runs(s)[|Runs(s)| - 1].key != key
    ensures Runs(s + [key]) == Runs(s) + [Run(key, 1)]
  {
  }

  lemma {:induction false} RunsMore<T>(s: seq<T>, front: seq<Run<T>>, key: T, count: nat)
    requires Runs(s) == front + [Run(key, count)]
    ensures Runs(s + [key]) == front + [Run(key, count + 1)]
  {
  }

  lemma {:induction false} ShorterMaximal<T>(front: seq<Run<T>>, run: Run<T>)
    requires run.count > 1 && Maximal(front + [run])
    ensures Maximal(front + [Run(run.key, run.count - 1)])
  {
    var a, b := front + [run], front + [Run(run.key, run.count - 1)];
    assert forall i :: 0 <= i < |a| ==> b[i].key == a[i].key && (i < |front| ==> b[i] == a[i]);
  }

  // ---- timer groups

  /** Each run of channels with the index of its timer. */
  function TimerGroups<T(==)>(timers: seq<T>, channels: seq<T>): Result<seq<Run<nat>>> {
    var runs := Runs(channels);
    if channels == [] then Failed(NoChannels)
    else if exists i :: 0 <= i < |runs| && runs[i].key !in timers then Failed(UnknownTimer)
    else Ok(seq(|runs|, i requires 0 <= i < |runs| => Run(IndexOf(timers, runs[i].key), runs[i].count)))
  }

  function Named<T>(timers: seq<T>, groups: seq<Run<nat>>): seq<Run<T>>
    requires forall i :: 0 <= i < |groups| ==> groups[i].key < |timers|
  {
    seq(|groups|, i requires 0 <= i < |groups| => Run(timers[groups[i].key], groups[i].count))
  }

  function Length<T>(runs: seq<Run<T>>): nat {
    if runs == [] then 0 else Length(runs[..|runs| - 1]) + runs[|runs| - 1].count
  }

  lemma {:induction false} ExpandLength<T>(runs: seq<Run<T>>)
    ensures |Expand(runs)| == Length(runs)
    decreases |runs|
  {
    if runs == [] {
    } else {
      ExpandLength(runs[..|runs| - 1]);
    }
  }

  lemma {:induction false} SameCounts<S, T>(a: seq<Run<S>>, b: seq<Run<T>>)
    requires |a| == |b| && forall i :: 0 <= i < |a| ==> a[i].count == b[i].count
    ensures Length(a) == Length(b)
    decreases |a|
  {
    if a == [] {
    } else {
      SameCounts(a[..|a| - 1], b[..|b| - 1]);
    }
  }

  lemma {:induction false} KeysListed<T>(s: seq<T>, i: nat)
    requires i < |Runs(s)|
    ensures Runs(s)[i].key in s
    decreases |s|
  {
    var n := |s| - 1;
    if i >= |Runs(s[..n])| {
    } else {
      KeysListed(s[..n], i);
    }
  }

  /** The groups succeed exactly for a nonempty list of known timers, and expand to that list. */
  lemma {:induction false} TimerGroupsExpand<T>(timers: seq<T>, channels: seq<T>)
    ensures var r := TimerGroups(timers, channels);
      && (r.Ok? <==> channels != [] && forall i :: 0 <= i < |channels| ==> channels[i] in timers)
      && (r.Ok? ==>
            && (forall i :: 0 <= i < |r.value| ==> r.value[i].key < |timers|)
            && Expand(Named(timers, r.value)) == channels && Length(r.value) == |channels|
            && Maximal(Named(timers, r.value)))
  {
    KnownTimers(timers, channels);
    var r := TimerGroups(timers, channels);
    if r.Ok? {
      var runs := Runs(channels);
      RunsExpand(channels);
      assert Named(timers, r.value) == runs;
      ExpandLength(runs);
      SameCounts(r.value, runs);
    }
  }

  /** The keys of the runs are the channels' timers. */
  lemma {:induction false} KnownTimers<T>(timers: seq<T>, channels: seq<T>)
    ensures (forall i :: 0 <= i < |Runs(channels)| ==> Runs(channels)[i].key in timers)
       <==> (forall k :: 0 <= k < |channels| ==> channels[k] in timers)
  {
    var runs := Runs(channels);
    RunsExpand(channels);
    if forall k :: 0 <= k < |channels| ==> channels[k] in timers {
      forall i | 0 <= i < |runs| ensures runs[i].key in timers {
        KeysListed(channels, i);
      }
    }
    if forall i :: 0 <= i < |runs| ==> runs[i].key in timers {
      forall k | 0 <= k < |channels| ensures channels[k] in timers {
        var i := RunOf(runs, k);
        assert runs[i].key in timers;
      }
    }
  }

  lemma {:induction false} RunOf<T>(runs: seq<Run<T>>, k: nat) returns (i: nat)
    requires k < |Expand(runs)|
    ensures i < |runs| && runs[i].key == Expand(runs)[k]
    decreases |runs|
  {
    var last := |runs| - 1;
    if k < |Expand(runs[..last])| {
      i := RunOf(runs[..last], k);
    } else {
      i := last;
    }
  }

  // ---- output groups

  /** Channels `start` .. `start + count - 1` with labels counted separately for each kind. */
  datatype Group = Group(timerIndex: nat, start: nat, labelStart: nat, count: nat, kind: nat)

  /** PWM channels are kind 0 and capture channels kind 1. */
  function Kind(t: string): Result<nat> {
    if t == "pwm" then Ok(0) else if t == "cap" then Ok(1) else Failed(UnsupportedType)
  }

  predicate Uniform(types: seq<string>) {
    forall i :: 0 <= i < |types| ==> types[i] == types[0]
  }

  /** A slice that stops at the end of the list. */
  function Slice<T>(s: seq<T>, from: nat, count: nat): seq<T> {
    if from >= |s| then [] else if from + count <= |s| then s[from..from + count] else s[from..]
  }

  /** How many of the types are this one. */
  function Occurrences(types: seq<string>, t: string): nat {
    if types == [] then 0 else Occurrences(types[..|types| - 1], t) + if types[|types| - 1] == t then 1 else 0
  }

  lemma {:induction false} OccurrencesAppend(a: seq<string>, b: seq<string>, t: string)
    ensures Occurrences(a + b, t) == Occurrences(a, t) + Occurrences(b, t)
    decreases |b|
  {
    if b == [] {
      assert a + b == a;
    } else {
      OccurrencesAppend(a, b[..|b| - 1], t);
      assert (a + b)[..|a + b| - 1] == a + b[..|b| - 1];
    }
  }

  lemma {:induction false} OccurrencesUniform(types: seq<string>, t: string, u: string)
    requires forall i :: 0 <= i < |types| ==> types[i] == u
    ensures Occurrences(types, t) == if t == u then |types| else 0
    decreases |types|
  {
    if types == [] {
    } else {
      OccurrencesUniform(types[..|types| - 1], t, u);
    }
  }

  function KindName(kind: nat): string {
    if kind == 0 then "pwm" else "cap"
  }

  /** Group g covers its own channels: one type, and labels that go on from the earlier channels of that type. */
  predicate Describes(g: Group, timerIndex: nat, count: nat, types: seq<string>, start: nat) {
    && g.timerIndex == timerIndex && g.count == count > 0 && g.start == start + 1 && g.kind <= 1
    && start + count <= |types|
    && (forall i :: start <= i < start + count ==> types[i] == KindName(g.kind))
    && g.labelStart == 1 + Occurrences(types[..start], KindName(g.kind))
  }

  /** The groups cover 1 .. N in order, one group for each run of timers. */
  ghost predicate Covers(groups: seq<Run<nat>>, types: seq<string>, out: seq<Group>, n: nat) {
    && n <= |groups| && |out| == n
    && forall i :: 0 <= i < n ==> Describes(out[i], groups[i].key, groups[i].count, types, Length(groups[..i]))
  }

  /** Channel j, counted from 0, is one of the i-th group. */
  predicate InGroup(groups: seq<Run<nat>>, types: seq<string>, i: nat, j: nat)
    requires i < |groups|
  {
    Length(groups[..i]) <= j < Length(groups[..i]) + groups[i].count && j < |types|
  }

  ghost predicate AllAre(groups: seq<Run<nat>>, types: seq<string>, i: nat, t: string)
    requires i < |groups|
  {
    forall j: nat :: InGroup(groups, types, i, j) ==> types[j] == t
  }

  ghost predicate HasChannel(groups: seq<Run<nat>>, types: seq<string>, i: nat)
    requires i < |groups|
  {
    exists j: nat :: InGroup(groups, types, i, j)
  }

  /** A group that can be made: it has channels, and all of them are PWM, or all of them are capture channels. */
  ghost predicate Makeable(groups: seq<Run<nat>>, types: seq<string>, i: nat)
    requires i < |groups|
  {
    HasChannel(groups, types, i) && (AllAre(groups, types, i, "pwm") || AllAre(groups, types, i, "cap"))
  }

  ghost predicate AllMakeable(groups: seq<Run<nat>>, types: seq<string>, n: nat) {
    n <= |groups| && forall i :: 0 <= i < n ==> Makeable(groups, types, i)
  }

  /** Two channels of the group are of different types. */
  ghost predicate Mixed(groups: seq<Run<nat>>, types: seq<string>, i: nat)
    requires i < |groups|
  {
    exists j: nat, k: nat :: InGroup(groups, types, i, j) && InGroup(groups, types, i, k) && types[j] != types[k]
  }

  /** Why a group cannot be made. */
  ghost predicate Refused(groups: seq<Run<nat>>, types: seq<string>, i: nat, e: Error)
    requires i < |groups|
  {
    if Mixed(groups, types, i) then e == MixedTypes
    else if !HasChannel(groups, types, i) then e == MissingType
    else e == UnsupportedType && !AllAre(groups, types, i, "pwm") && !AllAre(groups, types, i, "cap")
  }

  /** The first group that cannot be made is the one complained about. */
  ghost predicate RefusedSome(groups: seq<Run<nat>>, types: seq<string>, e: Error) {
    exists i: nat :: i < |groups| && AllMakeable(groups, types, i) && RefusedAt(groups, types, i, e)
  }

  ghost predicate RefusedAt(groups: seq<Run<nat>>, types: seq<string>, i: nat, e: Error)
    requires i < |groups|
  {
    !Makeable(groups, types, i) && Refused(groups, types, i, e)
  }

  /** The next label of each kind after the first n channels. */
  predicate NextLabels(types: seq<string>, n: nat, labels: seq<nat>) {
    && n <= |types| && |labels| == 2
    && forall kind :: 0 <= kind < 2 ==> labels[kind] == 1 + Occurrences(types[..n], KindName(kind))
  }

  /** The kind of a group's channels. */
  function GroupKind(mine: seq<string>): Result<nat> {
    if !Uniform(mine) then Failed(MixedTypes) else if mine == [] then Failed(MissingType) else Kind(mine[0])
  }

  method GetOutputGroups(groups: seq<Run<nat>>, types: seq<string>) returns (r: Result<seq<Group>>)
    ensures r.Ok? <==> AllMakeable(groups, types, |groups|)
    ensures r.Ok? && Length(groups) <= |types| ==> Covers(groups, types, r.value, |groups|)
    ensures r.Failed? ==> RefusedSome(groups, types, r.e)
  {
    ghost var enough := Length(groups) <= |types|;
    var instanceStart := 1;
    var outputGroups := [];
    var instanceStartLabel: seq<nat> := [1, 1];
    NothingGrouped(groups, types);
    for i := 0 to |groups|
      invariant instanceStart == 1 + Length(groups[..i]) && |instanceStartLabel| == 2
      invariant AllMakeable(groups, types, i)
      invariant enough ==> Grouped(groups, types, outputGroups, i, instanceStartLabel)
    {
      var count := groups[i].count;
      LengthPrefix(groups, i);
      var kind := GroupKind(Slice(types, instanceStart - 1, count));
      KindStep(groups, types, i, instanceStart - 1, kind);
      if kind.Failed? {
        return Failed(kind.e);
      }
      var channelType := kind.value;
      var g := Group(groups[i].key, instanceStart, instanceStartLabel[channelType], count, channelType);
      if enough {
        GroupNext(groups, types, outputGroups, i, instanceStartLabel, g);
      }
      outputGroups := outputGroups + [g];
      instanceStart := instanceStart + count;
      instanceStartLabel := instanceStartLabel[channelType := instanceStartLabel[channelType] + count];
    }
    return Ok(outputGroups);
  }

  lemma {:induction false} KindStep(groups: seq<Run<nat>>, types: seq<string>, i: nat, start: nat, kind: Result<nat>)
    requires i < |groups| && start == Length(groups[..i]) && kind == GroupKind(Slice(types, start, groups[i].count))
    requires AllMakeable(groups, types, i)
    ensures if kind.Failed? then RefusedSome(groups, types, kind.e) && !AllMakeable(groups, types, |groups|)
            else kind.value <= 1 && OfKind(groups, types, i, kind.value) && AllMakeable(groups, types, i + 1)
  {
    var mine := Slice(types, start, groups[i].count);
    GroupMakeable(groups, types, i, start, mine);
    if kind.Failed? {
      assert RefusedAt(groups, types, i, kind.e);
    } else {
      KindNames(mine[0]);
    }
  }

  /** The slice holds the types of the group's channels. */
  lemma {:induction false} SliceOfGroup(groups: seq<Run<nat>>, types: seq<string>, i: nat, start: nat, mine: seq<string>)
    requires i < |groups| && start == Length(groups[..i]) && mine == Slice(types, start, groups[i].count)
    ensures forall j: nat :: InGroup(groups, types, i, j) ==> j - start < |mine| && mine[j - start] == types[j]
    ensures forall n: nat :: n < |mine| ==> InGroup(groups, types, i, start + n) && mine[n] == types[start + n]
  {
  }

  lemma {:induction false} GroupMakeable(groups: seq<Run<nat>>, types: seq<string>, i: nat, start: nat,
                                         mine: seq<string>)
    requires i < |groups| && start == Length(groups[..i]) && mine == Slice(types, start, groups[i].count)
    ensures GroupKind(mine).Ok? <==> Makeable(groups, types, i)
    ensures GroupKind(mine).Failed? ==> Refused(groups, types, i, GroupKind(mine).e)
  {
    SliceOfGroup(groups, types, i, start, mine);
    if !Uniform(mine) {
      var n: nat :| n < |mine| && mine[n] != mine[0];
      assert InGroup(groups, types, i, start + n) && InGroup(groups, types, i, start + 0);
      assert Mixed(groups, types, i);
    } else if mine != [] {
      assert InGroup(groups, types, i, start + 0);
      assert forall j: nat :: InGroup(groups, types, i, j) ==> types[j] == mine[0];
    }
  }

  /** All channels of the i-th group are of this kind. */
  predicate OfKind(groups: seq<Run<nat>>, types: seq<string>, i: nat, kind: nat)
    requires i < |groups|
  {
    var mine := Slice(types, Length(groups[..i]), groups[i].count);
    mine != [] && Uniform(mine) && mine[0] == KindName(kind)
  }

  lemma {:induction false} NothingGrouped(groups: seq<Run<nat>>, types: seq<string>)
    ensures Length(groups[..0]) == 0 && Grouped(groups, types, [], 0, [1, 1])
  {
  }

  lemma {:induction false} KindNames(t: string)
    ensures Kind(t).Ok? ==> Kind(t).value <= 1 && t == KindName(Kind(t).value)
    ensures KindName(0) != KindName(1)
  {
  }

  /** The loop has made the first i groups, and knows the next labels. */
  ghost predicate Grouped(groups: seq<Run<nat>>, types: seq<string>, out: seq<Group>, i: nat, labels: seq<nat>) {
    exists k: nat :: k == i && Covers(groups, types, out, k) && NextLabels(types, Length(groups[..k]), labels)
  }

  lemma {:induction false} GroupNext(groups: seq<Run<nat>>, types: seq<string>, out: seq<Group>, i: nat,
                                     labels: seq<nat>, g: Group)
    requires i < |groups| && Grouped(groups, types, out, i, labels) && Length(groups) <= |types|
    requires |labels| == 2 && g.kind <= 1 && OfKind(groups, types, i, g.kind)
    requires g == Group(groups[i].key, Length(groups[..i]) + 1, labels[g.kind], groups[i].count, g.kind)
    ensures Grouped(groups, types, out + [g], i + 1, labels[g.kind := labels[g.kind] + g.count])
  {
    LengthPrefix(groups, i);
    var start, end := Length(groups[..i]), Length(groups[..i + 1]);
    LabelsNext(types, start, end, Slice(types, start, g.count), labels, g);
    CoversNext(groups, types, out, i, g, start);
    var k := i + 1;
    assert Covers(groups, types, out + [g], k);
  }

  lemma {:induction false} CoversNext(groups: seq<Run<nat>>, types: seq<string>, out: seq<Group>, i: nat, g: Group,
                                      start: nat)
    requires i < |groups| && Covers(groups, types, out, i) && start == Length(groups[..i])
    requires Describes(g, groups[i].key, groups[i].count, types, start)
    ensures Covers(groups, types, out + [g], i + 1)
  {
  }

  lemma {:induction false} LabelsNext(types: seq<string>, start: nat, end: nat, mine: seq<string>, labels: seq<nat>,
                                      g: Group)
    requires NextLabels(types, start, labels) && end == start + g.count <= |types| && g.kind <= 1
    requires mine == Slice(types, start, g.count) && mine != [] && Uniform(mine) && mine[0] == KindName(g.kind)
    requires g.start == start + 1 && g.labelStart == labels[g.kind]
    ensures NextLabels(types, end, labels[g.kind := labels[g.kind] + g.count])
    ensures Describes(g, g.timerIndex, g.count, types, start)
  {
    KindNames(mine[0]);
    GroupTypes(types, start, g.count, mine, KindName(0));
    GroupTypes(types, start, g.count, mine, KindName(1));
  }

  lemma {:induction false} LengthPrefix<T>(runs: seq<Run<T>>, i: nat)
    requires i < |runs|
    ensures Length(runs[..i + 1]) == Length(runs[..i]) + runs[i].count <= Length(runs)
    decreases |runs|
  {
    assert runs[..i + 1][..i] == runs[..i];
    if i + 1 == |runs| {
      assert runs[..i + 1] == runs;
    } else {
      var front := runs[..|runs| - 1];
      LengthPrefix(front, i);
      assert front[..i + 1] == runs[..i + 1] && front[..i] == runs[..i];
    }
  }

  lemma {:induction false} GroupTypes(types: seq<string>, start: nat, count: nat, mine: seq<string>, t: string)
    requires start + count <= |types| && mine == Slice(types, start, count) && mine != [] && Uniform(mine)
    ensures count > 0 && forall i :: start <= i < start + count ==> types[i] == mine[0]
    ensures Occurrences(types[..start + count], t) == Occurrences(types[..start], t) + if t == mine[0] then count else 0
  {
    assert mine == types[start..start + count];
    assert forall i :: start <= i < start + count ==> types[i] == mine[i - start];
    assert types[..start + count] == types[..start] + mine;
    OccurrencesAppend(types[..start], mine, t);
    OccurrencesUniform(mine, t, mine[0]);
  }

  // ---- labels

  /** A channel's kind and label number. */
  datatype Label = Label(kind: nat, number: nat)

  function GroupLabels(g: Group): seq<Label> {
    seq(g.count, i requires 0 <= i => Label(g.kind, g.labelStart + i))
  }

  function Labels(out: seq<Group>): seq<Label> {
    if out == [] then [] else Labels(out[..|out| - 1]) + GroupLabels(out[|out| - 1])
  }

  /** What the c-th channel should be called: its kind, and one more than the earlier channels of that kind. */
  ghost predicate WellLabelled(types: seq<string>, labels: seq<Label>) {
    |labels| <= |types| && forall c :: 0 <= c < |labels| ==> LabelFits(types, c, labels[c])
  }

  predicate LabelFits(types: seq<string>, c: nat, l: Label)
    requires c < |types|
  {
    types[c] == KindName(l.kind) && l.kind <= 1 && l.number == 1 + Occurrences(types[..c], types[c])
  }

  lemma {:induction false} GroupLabelled(types: seq<string>, g: Group, start: nat, i: nat)
    requires Describes(g, g.timerIndex, g.count, types, start) && i < g.count
    ensures LabelFits(types, start + i, GroupLabels(g)[i])
  {
    var mine := types[start..start + i];
    assert types[..start + i] == types[..start] + mine;
    OccurrencesAppend(types[..start], mine, types[start]);
    OccurrencesUniform(mine, types[start], types[start]);
  }

  /** The groups partition the channels in order, and number each kind's channels from 1 without gaps. */
  lemma {:induction false} LabelsCount(groups: seq<Run<nat>>, types: seq<string>, out: seq<Group>, n: nat)
    requires Covers(groups, types, out, n)
    ensures |Labels(out)| == Length(groups[..n]) && WellLabelled(types, Labels(out))
    decreases n
  {
    if n == 0 {
    } else {
      var m := n - 1;
      assert out[..m] == out[..|out| - 1] && groups[..n][..m] == groups[..m];
      LabelsCount(groups, types, out[..m], m);
      var before, g, start := Labels(out[..m]), out[m], Length(groups[..m]);
      assert Labels(out) == before + GroupLabels(g);
      LabelledAppend(types, before, g, start);
    }
  }

  lemma {:induction false} LabelledAppend(types: seq<string>, before: seq<Label>, g: Group, start: nat)
    requires WellLabelled(types, before) && start == |before| && Describes(g, g.timerIndex, g.count, types, start)
    ensures WellLabelled(types, before + GroupLabels(g))
  {
    var all := before + GroupLabels(g);
    forall c | 0 <= c < |all| ensures LabelFits(types, c, all[c]) {
      if c >= start {
        GroupLabelled(types, g, start, c - start);
      }
    }
  }

  lemma {:induction false} OccurrencesGrow(types: seq<string>, c: nat, d: nat)
    requires c < d <= |types|
    ensures Occurrences(types[..c], types[c]) < Occurrences(types[..d], types[c])
    decreases d
  {
    assert types[..d][..d - 1] == types[..d - 1];
    if c >= d - 1 {
    } else {
      OccurrencesGrow(types, c, d - 1);
    }
  }

  /** No two channels of one kind have the same label. */
  lemma {:induction false} LabelsUnique(types: seq<string>, labels: seq<Label>, c: nat, d: nat)
    requires WellLabelled(types, labels) && c < d < |labels|
    ensures labels[c] != labels[d]
  {
    if labels[c].kind == labels[d].kind {
      OccurrencesGrow(types, c, d);
    }
  }
}
