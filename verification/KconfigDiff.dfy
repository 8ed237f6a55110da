/** Kconfig files as dictionaries, and their difference printed in merge style. */
module KconfigDiff {
  import opened Collections

  type Config = map<string, string>

  // ---- reading

  const PREFIX := "CONFIG_"
  const NOT_SET := " is not set"
  const NOT_SET_PREFIX := "# CONFIG_"

  predicate EndsNotSet(line: string) {
    |line| >= 11 && line[|line| - 11..] == NOT_SET
  }

  function Lookup(c: Config, k: string): Option<string> {
    if k in c then Some(c[k]) else None
  }

  /** The name on a line that ends with " is not set". */
  function NotSetName(line: string): string
    requires EndsNotSet(line)
  {
    if |line| >= 20 then line[9..|line| - 11] else ""
  }

  /** Reads one line, without its newline; a CONFIG_ line with no `=` is an error. */
  function ReadLine(d: Config, line: string): Option<Config> {
    if |line| >= 7 && line[..7] == PREFIX && '=' !in line[7..] then None
    else
      var d1 := if |line| >= 7 && line[..7] == PREFIX then
                  var i := IndexOf(line[7..], '=');
                  d[line[7..][..i] := line[7..][i + 1..]]
                else d;
      Some(if EndsNotSet(line) then d1[NotSetName(line) := "n"] else d1)
  }

  /** Reads lines into a dictionary that already holds d. */
  function ReadLines(d: Config, lines: seq<string>): Option<Config> {
    if lines == [] then Some(d)
    else
      var before := ReadLines(d, lines[..|lines| - 1]);
      if before.None? then None else ReadLine(before.value, lines[|lines| - 1])
  }

  /** A line of a file loses its last character, the newline. */
  function Chop(line: string): string {
    if line == [] then [] else line[..|line| - 1]
  }

  function Chopped(file: seq<string>): (lines: seq<string>)
    ensures |lines| == |file|
  {
    seq(|file|, i requires 0 <= i < |file| => Chop(file[i]))
  }

  /** The body of the loop over the lines. */
  method ReadInto(d0: Config, line: string) returns (r: Option<Config>)
    ensures r == ReadLine(d0, line)
  {
    var d := d0;
    if |line| >= 7 && line[..7] == PREFIX {
      if '=' !in line[7..] {
        return None;
      }
      var i := IndexOf(line[7..], '=');
      d := d[line[7..][..i] := line[7..][i + 1..]];
    }
    if EndsNotSet(line) {
      d := d[NotSetName(line) := "n"];
    }
    return Some(d);
  }

  method ReadConfig(file: seq<string>) returns (r: Option<Config>)
    ensures r == ReadLines(map[], Chopped(file))
  {
    var d: Config := map[];
    ghost var lines := Chopped(file);
    for k := 0 to |file|
      invariant ReadLines(map[], lines[..k]) == Some(d)
    {
      assert lines[..k + 1][..k] == lines[..k] && lines[..k + 1][k] == Chop(file[k]);
      var next := ReadInto(d, Chop(file[k]));
      if next.None? {
        ReadStopsAt(lines, k);
        return None;
      }
      d := next.value;
    }
    assert lines[..|file|] == lines;
    return Some(d);
  }

  lemma {:induction false} ReadStopsAt(lines: seq<string>, k: nat)
    requires k < |lines| && ReadLines(map[], lines[..k + 1]).None?
    ensures ReadLines(map[], lines).None?
    decreases |lines|
  {
    if k + 1 == |lines| {
      assert lines[..k + 1] == lines;
    } else {
      assert lines[..|lines| - 1][..k + 1] == lines[..k + 1];
      ReadStopsAt(lines[..|lines| - 1], k);
    }
  }

  // ---- what a file says

  /** `line` is nine characters, the name, and " is not set"; shorter lines of this kind name the empty string. */
  predicate Unsets(line: string, k: string) {
    || (|line| == |k| + 20 && line[9..] == k + " is not set")
    || (11 <= |line| < 20 && line[|line| - 11..] == " is not set" && k == "")
  }

  /** `line` is "CONFIG_", the name, an equals sign, and the value. */
  predicate Sets(line: string, k: string, v: string) {
    '=' !in k && line == "CONFIG_" + k + "=" + v
  }

  /** The line gives k the value v; a line that does both says `n`. */
  predicate Assigns(line: string, k: string, v: string) {
    if Unsets(line, k) then v == "n" else Sets(line, k, v)
  }

  /** A line that begins an assignment and has no equals sign. */
  predicate Broken(line: string) {
    |line| >= 7 && line[..7] == "CONFIG_" && '=' !in line[7..]
  }

  ghost predicate Mentions(line: string, k: string) {
    exists v :: Assigns(line, k, v)
  }

  /** The last line that gives k a value gives it v. */
  ghost predicate LastAssigned(lines: seq<string>, k: string, v: string) {
    exists i :: 0 <= i < |lines| && Assigns(lines[i], k, v) && NotAfter(lines, i, k)
  }

  ghost predicate NotAfter(lines: seq<string>, i: int, k: string) {
    forall j :: i < j < |lines| && 0 <= j ==> !Mentions(lines[j], k)
  }

  lemma {:induction false} UnsetsNames(line: string, k: string)
    ensures Unsets(line, k) <==> EndsNotSet(line) && NotSetName(line) == k
  {
    if |line| >= 20 {
      assert line[9..] == line[9..|line| - 11] + line[|line| - 11..];
      if Unsets(line, k) {
        assert line[9..][..|k|] == k && line[9..][|k|..] == " is not set";
        assert line[9..|line| - 11] == line[9..][..|k|] && line[|line| - 11..] == line[9..][|k|..];
      }
    }
  }

  lemma {:induction false} SetsParts(line: string, k: string, v: string)
    ensures Sets(line, k, v) <==>
      && |line| >= 7 && line[..7] == PREFIX && '=' in line[7..]
      && k == line[7..][..IndexOf(line[7..], '=')] && v == line[7..][IndexOf(line[7..], '=') + 1..]
  {
    if Sets(line, k, v) {
      var tail := k + "=" + v;
      assert line == PREFIX + tail;
      assert line[..7] == PREFIX && line[7..] == tail && tail[|k|] == '=';
      FirstEquals(tail, k, v);
    } else if |line| >= 7 && line[..7] == PREFIX && '=' in line[7..] {
      PartsSet(line, line[7..], IndexOf(line[7..], '='));
    }
  }

  lemma {:induction false} PartsSet(line: string, tail: string, i: nat)
    requires |line| >= 7 && line[..7] == PREFIX && tail == line[7..] && i < |tail| && tail[i] == '=' && '=' !in tail[..i]
    ensures Sets(line, tail[..i], tail[i + 1..])
  {
    var name, value := tail[..i], tail[i + 1..];
    assert tail == name + "=" + value;
    assert line == PREFIX + tail;
    assert PREFIX + (name + "=" + value) == PREFIX + name + "=" + value;
  }

  lemma {:induction false} FirstEquals(tail: string, k: string, v: string)
    requires tail == k + "=" + v && '=' !in k && '=' in tail
    ensures IndexOf(tail, '=') == |k| && tail[..|k|] == k && tail[|k| + 1..] == v
  {
    assert tail[|k|] == '=';
    var i := IndexOf(tail, '=');
    assert tail[..|k|] == k;
    assert i == |k|;
    assert tail[|k| + 1..] == v;
  }

  /** One line: it is an error, or changes exactly the names it assigns. */
  lemma {:induction false} LineTheorem(d: Config, line: string, k: string)
    ensures ReadLine(d, line).None? <==> Broken(line)
    ensures ReadLine(d, line).Some? ==>
      var c := ReadLine(d, line).value;
      if Mentions(line, k) then k in c && Assigns(line, k, c[k]) else Lookup(c, k) == Lookup(d, k)
  {
    UnsetsNames(line, k);
    if Unsets(line, k) {
      assert Assigns(line, k, "n");
    } else if |line| >= 7 && line[..7] == PREFIX && '=' in line[7..] {
      SetLineTheorem(d, line, k);
    } else {
      forall v ensures !Assigns(line, k, v) {
        SetsParts(line, k, v);
      }
    }
  }

  lemma {:induction false} SetLineTheorem(d: Config, line: string, k: string)
    requires |line| >= 7 && line[..7] == PREFIX && '=' in line[7..] && !Unsets(line, k)
    requires !(EndsNotSet(line) && NotSetName(line) == k)
    ensures var c := ReadLine(d, line).value;
      if Mentions(line, k) then k in c && Assigns(line, k, c[k]) else Lookup(c, k) == Lookup(d, k)
  {
    var i := IndexOf(line[7..], '=');
    var name, value := line[7..][..i], line[7..][i + 1..];
    SetsParts(line, name, value);
    if name == k {
      assert Assigns(line, k, value);
    } else {
      forall v ensures !Assigns(line, k, v) {
        SetsParts(line, k, v);
      }
    }
  }

  lemma {:induction false} AssignsOnce(line: string, k: string, v: string, w: string)
    requires Assigns(line, k, v) && Assigns(line, k, w)
    ensures v == w
  {
    if !Unsets(line, k) {
      SetsParts(line, k, v);
      SetsParts(line, k, w);
    }
  }

  lemma {:induction false} LastAssignedNext(lines: seq<string>, line: string, k: string, v: string)
    ensures LastAssigned(lines + [line], k, v) <==>
      Assigns(line, k, v) || (!Mentions(line, k) && LastAssigned(lines, k, v))
  {
    var all, n := lines + [line], |lines|;
    if Assigns(line, k, v) {
      assert all[n] == line && NotAfter(all, n, k);
    }
    if !Mentions(line, k) && LastAssigned(lines, k, v) {
      var i :| 0 <= i < |lines| && Assigns(lines[i], k, v) && NotAfter(lines, i, k);
      assert all[i] == lines[i] && NotAfter(all, i, k);
    }
    if LastAssigned(all, k, v) && !Assigns(line, k, v) {
      var i :| 0 <= i < |all| && Assigns(all[i], k, v) && NotAfter(all, i, k);
      assert all[i] == lines[i] && all[n] == line && !Mentions(all[n], k);
      assert forall j :: 0 <= j < n ==> lines[j] == all[j];
      assert NotAfter(lines, i, k);
    }
  }

  /** A dictionary that is read holds for every name what the last line assigning it says, and nothing else. */
  lemma {:induction false} ReadTheorem(lines: seq<string>, c: Config, k: string, v: string)
    requires ReadLines(map[], lines) == Some(c)
    ensures Lookup(c, k) == Some(v) <==> LastAssigned(lines, k, v)
    decreases |lines|
  {
    if lines == [] {
    } else {
      var front, line := lines[..|lines| - 1], lines[|lines| - 1];
      var d := ReadLines(map[], front).value;
      ReadTheorem(front, d, k, v);
      LineTheorem(d, line, k);
      assert lines == front + [line];
      LastAssignedNext(front, line, k, v);
      if Mentions(line, k) {
        if Assigns(line, k, v) {
          AssignsOnce(line, k, v, c[k]);
        }
      }
    }
  }

  /** Reading fails if and only if some line begins an assignment and has no equals sign. */
  lemma {:induction false} ReadFails(d: Config, lines: seq<string>)
    ensures ReadLines(d, lines).None? <==> exists i :: 0 <= i < |lines| && Broken(lines[i])
    decreases |lines|
  {
    if lines == [] {
    } else {
      var front, line := lines[..|lines| - 1], lines[|lines| - 1];
      ReadFails(d, front);
      assert forall i :: 0 <= i < |front| ==> front[i] == lines[i];
      if ReadLines(d, front).Some? {
        LineTheorem(ReadLines(d, front).value, line, "");
      }
    }
  }

  // ---- printing

  datatype Op = Removed | Changed | Added

  predicate Truthy(v: Option<string>) {
    v.Some? && v.value != ""
  }

  function NotSetLine(config: string): string {
    NOT_SET_PREFIX + config + NOT_SET
  }

  function SetLine(config: string, value: string): string {
    PREFIX + config + "=" + value
  }

  /** Merge style: no line or one line. */
  function PrintConfig(op: Op, config: string, value: Option<string>, newValue: Option<string>): seq<string> {
    if op == Removed && value == Some("y") then [SetLine(config, "n")]
    else if op == Removed && !Truthy(newValue) then [NotSetLine(config)]
    else if Truthy(newValue) then
      if newValue.value == "n" then [NotSetLine(config)] else [SetLine(config, newValue.value)]
    else []
  }

  function PrintKeys(op: Op, keys: seq<string>, a: Config, b: Config): seq<string> {
    if keys == [] then []
    else
      var k := keys[|keys| - 1];
      PrintKeys(op, keys[..|keys| - 1], a, b) + PrintConfig(op, k, Lookup(a, k), Lookup(b, k))
  }

  // ---- sorting

  predicate Le(a: string, b: string) {
    a == [] || (b != [] && (a[0] < b[0] || (a[0] == b[0] && Le(a[1..], b[1..]))))
  }

  lemma {:induction false} LeTotal(a: string, b: string)
    ensures Le(a, b) || Le(b, a)
    decreases |a|
  {
    if a == [] || b == [] {
    } else {
      LeTotal(a[1..], b[1..]);
    }
  }

  lemma {:induction false} LeTrans(a: string, b: string, c: string)
    requires Le(a, b) && Le(b, c)
    ensures Le(a, c)
    decreases |a|
  {
    if a == [] || !(a[0] == b[0] == c[0]) {
    } else {
      LeTrans(a[1..], b[1..], c[1..]);
    }
  }

  lemma {:induction false} LeAntisymmetric(a: string, b: string)
    requires Le(a, b) && Le(b, a)
    ensures a == b
    decreases |a|
  {
    if a == [] {
    } else {
      LeAntisymmetric(a[1..], b[1..]);
      assert a == [a[0]] + a[1..] && b == [b[0]] + b[1..];
    }
  }

  /** The first difference is at i, and a is smaller there. */
  predicate SmallerAt(a: string, b: string, i: nat) {
    i < |a| && i < |b| && a[..i] == b[..i] && a[i] < b[i]
  }

  lemma {:induction false} SmallerLater(a: string, b: string, i: nat)
    requires a != [] && b != [] && a[0] == b[0]
    ensures SmallerAt(a[1..], b[1..], i) <==> SmallerAt(a, b, i + 1)
  {
    if i < |a| - 1 && i < |b| - 1 {
      assert a[..i + 1] == [a[0]] + a[1..][..i] && b[..i + 1] == [b[0]] + b[1..][..i];
      assert a[..i + 1][1..] == a[1..][..i] && b[..i + 1][1..] == b[1..][..i];
    }
  }

  /** The order of strings: a prefix comes first, and otherwise the first difference decides. */
  lemma {:induction false} LeIsLexicographic(a: string, b: string)
    ensures Le(a, b) <==> a <= b || exists i: nat :: SmallerAt(a, b, i)
    decreases |a|
  {
    if a == [] || b == [] {
    } else if a[0] != b[0] {
      if a[0] < b[0] {
        assert SmallerAt(a, b, 0);
      }
      forall i | 0 < i < |a| && i < |b| ensures a[..i] != b[..i] {
        assert a[..i][0] != b[..i][0];
      }
    } else {
      LeIsLexicographic(a[1..], b[1..]);
      assert a == [a[0]] + a[1..] && b == [b[0]] + b[1..];
      if i: nat :| SmallerAt(a[1..], b[1..], i) {
        SmallerLater(a, b, i);
      }
      if i: nat :| SmallerAt(a, b, i) {
        SmallerLater(a, b, i - 1);
      }
    }
  }

  predicate InOrder(s: seq<string>) {
    forall i, j :: 0 <= i < j < |s| ==> Le(s[i], s[j])
  }

  function Insert(s: seq<string>, k: string): seq<string> {
    if s == [] || Le(k, s[0]) then [k] + s else [s[0]] + Insert(s[1..], k)
  }

  lemma {:induction false} InsertAdds(s: seq<string>, k: string)
    ensures multiset(Insert(s, k)) == multiset(s) + multiset{k}
    decreases |s|
  {
    if s == [] || Le(k, s[0]) {
    } else {
      InsertAdds(s[1..], k);
      assert s == [s[0]] + s[1..];
    }
  }

  lemma {:induction false} InsertMember(s: seq<string>, k: string, x: string)
    requires x in Insert(s, k)
    ensures x == k || x in s
    decreases |s|
  {
    if s == [] || Le(k, s[0]) {
    } else if x == s[0] {
    } else {
      InsertMember(s[1..], k, x);
    }
  }

  lemma {:induction false} FirstInOrder(x: string, s: seq<string>)
    requires InOrder(s) && forall j :: 0 <= j < |s| ==> Le(x, s[j])
    ensures InOrder([x] + s)
  {
  }

  lemma {:induction false} InsertOrders(s: seq<string>, k: string)
    requires InOrder(s)
    ensures InOrder(Insert(s, k))
    decreases |s|
  {
    if s == [] {
    } else if Le(k, s[0]) {
      forall j | 0 <= j < |s| ensures Le(k, s[j]) {
        if j > 0 {
          LeTrans(k, s[0], s[j]);
        }
      }
      FirstInOrder(k, s);
    } else {
      LeTotal(k, s[0]);
      InsertOrders(s[1..], k);
      var r := Insert(s[1..], k);
      forall j | 0 <= j < |r| ensures Le(s[0], r[j]) {
        InsertMember(s[1..], k, r[j]);
      }
      FirstInOrder(s[0], r);
    }
  }

  function Sort(s: seq<string>): seq<string> {
    if s == [] then [] else Insert(Sort(s[..|s| - 1]), s[|s| - 1])
  }

  lemma {:induction false} SortSorts(s: seq<string>)
    ensures InOrder(Sort(s)) && multiset(Sort(s)) == multiset(s)
    decreases |s|
  {
    if s == [] {
    } else {
      var k := |s| - 1;
      SortSorts(s[..k]);
      InsertOrders(Sort(s[..k]), s[k]);
      InsertAdds(Sort(s[..k]), s[k]);
      assert s == s[..k] + [s[k]];
    }
  }

  // ---- the three passes

  /** In order, without repetition, and exactly these keys. */
  predicate Lists(s: seq<string>, keys: set<string>) {
    InOrder(s) && multiset(s) == multiset(keys)
  }

  lemma {:induction false} ListsSort(s: seq<string>, keys: set<string>)
    requires multiset(s) == multiset(keys)
    ensures Lists(Sort(s), keys)
  {
    SortSorts(s);
  }

  lemma {:induction false} Members(s: seq<string>, keys: set<string>)
    requires multiset(s) == multiset(keys)
    ensures forall k :: k in s <==> k in keys
  {
    forall k ensures k in s <==> k in keys {
      assert k in s <==> k in multiset(s);
    }
  }

  function RemovedKeys(a: Config, b: Config): set<string> {
    a.Keys - b.Keys
  }

  function ChangedKeys(a: Config, b: Config): set<string> {
    set k | k in a && k in b && a[k] != b[k]
  }

  function AddedKeys(a: Config, b: Config): set<string> {
    b.Keys - a.Keys
  }

  lemma {:induction false} Collect(s: seq<string>, keys: set<string>, k: string)
    requires multiset(s) == multiset(keys) && k !in keys
    ensures multiset(s + [k]) == multiset(keys + {k})
  {
  }

  /** The keys of a that are not in b, in the order met. */
  method CollectRemoved(a: Config, b: Config) returns (old': seq<string>)
    ensures multiset(old') == multiset(RemovedKeys(a, b))
  {
    old' := [];
    ghost var keys := {};
    var todo := a.Keys;
    while todo != {}
      invariant todo <= a.Keys && multiset(old') == multiset(keys)
      invariant forall k :: k in keys <==> k in a && k !in b && k !in todo
      decreases todo
    {
      var config :| config in todo;
      if config !in b {
        Collect(old', keys, config);
        old', keys := old' + [config], keys + {config};
      }
      todo := todo - {config};
    }
    assert keys == RemovedKeys(a, b);
  }

  /** The keys whose values differ; keys with equal values are deleted from b. */
  method CollectChanged(a: Config, b: Config) returns (changed: seq<string>, b': Config)
    requires a.Keys <= b.Keys
    ensures multiset(changed) == multiset(ChangedKeys(a, b))
    ensures b' == b - (a.Keys - ChangedKeys(a, b))
  {
    changed, b' := [], b;
    ghost var keys := {};
    var todo := a.Keys;
    while todo != {}
      invariant todo <= a.Keys && multiset(changed) == multiset(keys)
      invariant forall k :: k in keys <==> k in a && k !in todo && a[k] != b[k]
      invariant forall k :: k in b' <==> k in b && (k in a && k !in todo ==> a[k] != b[k])
      invariant forall k :: k in b' ==> b'[k] == b[k]
      decreases todo
    {
      var config :| config in todo;
      if a[config] != b'[config] {
        Collect(changed, keys, config);
        changed, keys := changed + [config], keys + {config};
      } else {
        b' := b' - {config};
      }
      todo := todo - {config};
    }
    assert keys == ChangedKeys(a, b);
  }

  /** The output is three sorted sections: removed, changed and added keys. */
  ghost predicate Sections(a: Config, b: Config, out: seq<string>) {
    exists r, c, n ::
      && Lists(r, RemovedKeys(a, b)) && Lists(c, ChangedKeys(a, b)) && Lists(n, AddedKeys(a, b))
      && out == PrintKeys(Removed, r, a, map[]) + PrintKeys(Changed, c, a, b) + PrintKeys(Added, n, map[], b)
  }

  /** The one line that an option gets: none when it is unchanged, or becomes empty. */
  predicate LineFor(a: Config, b: Config, k: string, line: string) {
    if k in a && k !in b then
      line == if a[k] == "y" then "CONFIG_" + k + "=n" else "# CONFIG_" + k + " is not set"
    else
      && k in b && (k in a ==> a[k] != b[k]) && b[k] != ""
      && line == if b[k] == "n" then "# CONFIG_" + k + " is not set" else "CONFIG_" + k + "=" + b[k]
  }

  lemma {:induction false} InPrintKeys(op: Op, keys: seq<string>, a: Config, b: Config, line: string)
    ensures line in PrintKeys(op, keys, a, b) <==>
      exists i :: 0 <= i < |keys| && line in PrintConfig(op, keys[i], Lookup(a, keys[i]), Lookup(b, keys[i]))
    decreases |keys|
  {
    if keys == [] {
    } else {
      var front := keys[..|keys| - 1];
      InPrintKeys(op, front, a, b, line);
      assert forall i :: 0 <= i < |front| ==> front[i] == keys[i];
    }
  }

  predicate PrintsFor(op: Op, section: set<string>, a: Config, b: Config, k: string, line: string) {
    k in section && line in PrintConfig(op, k, Lookup(a, k), Lookup(b, k))
  }

  lemma {:induction false} InSectionLines(op: Op, keys: seq<string>, section: set<string>, a: Config, b: Config,
                                          line: string)
    requires Lists(keys, section)
    ensures line in PrintKeys(op, keys, a, b) <==> exists k :: PrintsFor(op, section, a, b, k, line)
  {
    Members(keys, section);
    InPrintKeys(op, keys, a, b, line);
    if k :| PrintsFor(op, section, a, b, k, line) {
      var i :| 0 <= i < |keys| && keys[i] == k;
      assert line in PrintConfig(op, keys[i], Lookup(a, keys[i]), Lookup(b, keys[i]));
    }
    if i :| 0 <= i < |keys| && line in PrintConfig(op, keys[i], Lookup(a, keys[i]), Lookup(b, keys[i])) {
      assert PrintsFor(op, section, a, b, keys[i], line);
    }
  }

  /** The output holds exactly the lines of the options that are removed, changed or added. */
  lemma {:induction false} DiffLines(a: Config, b: Config, out: seq<string>, line: string)
    requires Sections(a, b, out)
    ensures line in out <==> exists k :: LineFor(a, b, k, line)
  {
    var r, c, n :| && Lists(r, RemovedKeys(a, b)) && Lists(c, ChangedKeys(a, b)) && Lists(n, AddedKeys(a, b))
      && out == PrintKeys(Removed, r, a, map[]) + PrintKeys(Changed, c, a, b) + PrintKeys(Added, n, map[], b);
    LinesOfKeys(a, b, r, c, n, line);
    InThree(PrintKeys(Removed, r, a, map[]), PrintKeys(Changed, c, a, b), PrintKeys(Added, n, map[], b), line);
    SectionsHaveLine(a, b, line);
  }

  lemma {:induction false} LinesOfKeys(a: Config, b: Config, r: seq<string>, c: seq<string>, n: seq<string>, line: string)
    requires Lists(r, RemovedKeys(a, b)) && Lists(c, ChangedKeys(a, b)) && Lists(n, AddedKeys(a, b))
    ensures InSomeSection(a, b, line) <==>
      || line in PrintKeys(Removed, r, a, map[]) || line in PrintKeys(Changed, c, a, b)
      || line in PrintKeys(Added, n, map[], b)
  {
    InSectionLines(Removed, r, RemovedKeys(a, b), a, map[], line);
    InSectionLines(Changed, c, ChangedKeys(a, b), a, b, line);
    InSectionLines(Added, n, AddedKeys(a, b), map[], b, line);
  }

  lemma {:induction false} InThree(first: seq<string>, second: seq<string>, third: seq<string>, line: string)
    ensures line in first + second + third <==> line in first || line in second || line in third
  {
  }

  /** Some section prints the line. */
  ghost predicate InSomeSection(a: Config, b: Config, line: string) {
    || (exists k :: PrintsFor(Removed, RemovedKeys(a, b), a, map[], k, line))
    || (exists k :: PrintsFor(Changed, ChangedKeys(a, b), a, b, k, line))
    || (exists k :: PrintsFor(Added, AddedKeys(a, b), map[], b, k, line))
  }

  lemma {:induction false} SectionsHaveLine(a: Config, b: Config, line: string)
    ensures InSomeSection(a, b, line) <==> exists k :: LineFor(a, b, k, line)
  {
    forall k ensures LineFor(a, b, k, line) <==> LineInSections(a, b, k, line) {
      LineOfOption(a, b, k, line);
    }
    if k :| PrintsFor(Removed, RemovedKeys(a, b), a, map[], k, line) {
      assert LineInSections(a, b, k, line);
    }
    if k :| PrintsFor(Changed, ChangedKeys(a, b), a, b, k, line) {
      assert LineInSections(a, b, k, line);
    }
    if k :| PrintsFor(Added, AddedKeys(a, b), map[], b, k, line) {
      assert LineInSections(a, b, k, line);
    }
    if k :| LineFor(a, b, k, line) {
      assert LineInSections(a, b, k, line);
    }
  }

  ghost predicate LineInSections(a: Config, b: Config, k: string, line: string) {
    || PrintsFor(Removed, RemovedKeys(a, b), a, map[], k, line)
    || PrintsFor(Changed, ChangedKeys(a, b), a, b, k, line)
    || PrintsFor(Added, AddedKeys(a, b), map[], b, k, line)
  }

  lemma {:induction false} LineOfOption(a: Config, b: Config, k: string, line: string)
    ensures LineFor(a, b, k, line) <==> LineInSections(a, b, k, line)
  {
    assert PREFIX + k + "=" + "n" == "CONFIG_" + k + "=n";
  }

  predicate NoRepeats(s: seq<string>) {
    forall i, j :: 0 <= i < j < |s| ==> s[i] != s[j]
  }

  lemma {:induction false} ListsNoRepeats(s: seq<string>, keys: set<string>)
    requires Lists(s, keys)
    ensures NoRepeats(s) && (set k | k in s) == keys
  {
    Members(s, keys);
    forall i, j | 0 <= i < j < |s| ensures s[i] != s[j] {
      var head, tail := s[..j], s[j..];
      assert s == head + tail;
      assert s[i] in multiset(head) && s[j] in multiset(tail);
      assert multiset(s)[s[i]] <= 1;
    }
  }

  /** Keys of a dictionary, each once. */
  predicate KeysOf(keys: seq<string>, c: Config) {
    NoRepeats(keys) && forall i :: 0 <= i < |keys| ==> keys[i] in c
  }

  /** The dictionary without the first i keys. */
  ghost predicate Deleted(c: Config, keys: seq<string>, i: nat, rest: Config) {
    && i <= |keys|
    && (forall k :: k in rest <==> k in c && k !in keys[..i])
    && (forall k :: k in rest ==> rest[k] == c[k])
  }

  lemma {:induction false} DeleteNext(c: Config, keys: seq<string>, i: nat, rest: Config)
    requires KeysOf(keys, c) && i < |keys| && Deleted(c, keys, i, rest)
    ensures keys[i] in rest && rest[keys[i]] == c[keys[i]]
    ensures Deleted(c, keys, i + 1, rest - {keys[i]})
    ensures keys[..i + 1][..i] == keys[..i]
  {
  }

  method PrintRemoved(keys: seq<string>, a: Config) returns (out: seq<string>, rest: Config)
    requires KeysOf(keys, a)
    ensures out == PrintKeys(Removed, keys, a, map[]) && Deleted(a, keys, |keys|, rest)
  {
    out, rest := [], a;
    for i := 0 to |keys|
      invariant Deleted(a, keys, i, rest) && out == PrintKeys(Removed, keys[..i], a, map[])
    {
      var config := keys[i];
      DeleteNext(a, keys, i, rest);
      out := out + PrintConfig(Removed, config, Some(rest[config]), None);
      rest := rest - {config};
    }
    assert keys[..|keys|] == keys;
  }

  method PrintChanged(keys: seq<string>, a: Config, b: Config) returns (out: seq<string>, rest: Config)
    requires KeysOf(keys, a) && KeysOf(keys, b)
    ensures out == PrintKeys(Changed, keys, a, b) && Deleted(b, keys, |keys|, rest)
  {
    out, rest := [], b;
    for i := 0 to |keys|
      invariant Deleted(b, keys, i, rest) && out == PrintKeys(Changed, keys[..i], a, b)
    {
      var config := keys[i];
      DeleteNext(b, keys, i, rest);
      assert config in a;
      out := out + PrintConfig(Changed, config, Some(a[config]), Some(rest[config]));
      rest := rest - {config};
    }
    assert keys[..|keys|] == keys;
  }

  method PrintAdded(keys: seq<string>, b: Config) returns (out: seq<string>)
    requires KeysOf(keys, b)
    ensures out == PrintKeys(Added, keys, map[], b)
  {
    out := [];
    for i := 0 to |keys|
      invariant out == PrintKeys(Added, keys[..i], map[], b)
    {
      assert keys[..i + 1][..i] == keys[..i] && keys[i] in b;
      out := out + PrintConfig(Added, keys[i], None, Some(b[keys[i]]));
    }
    assert keys[..|keys|] == keys;
  }

  lemma {:induction false} ListsKeys(keys: seq<string>, s: set<string>, c: Config)
    requires Lists(keys, s) && s <= c.Keys
    ensures KeysOf(keys, c)
    ensures forall rest :: Deleted(c, keys, |keys|, rest) ==> rest == c - s
  {
    ListsNoRepeats(keys, s);
    Members(keys, s);
    assert keys[..|keys|] == keys;
  }

  method RemovedPass(a: Config, b: Config) returns (keys: seq<string>, out: seq<string>, rest: Config)
    ensures Lists(keys, RemovedKeys(a, b)) && out == PrintKeys(Removed, keys, a, map[])
    ensures rest == a - RemovedKeys(a, b)
  {
    keys := CollectRemoved(a, b);
    ListsSort(keys, RemovedKeys(a, b));
    keys := Sort(keys);
    ListsKeys(keys, RemovedKeys(a, b), a);
    out, rest := PrintRemoved(keys, a);
  }

  method ChangedPass(a: Config, b: Config) returns (keys: seq<string>, out: seq<string>, rest: Config)
    requires a.Keys <= b.Keys
    ensures Lists(keys, ChangedKeys(a, b)) && out == PrintKeys(Changed, keys, a, b)
    ensures rest == b - a.Keys
  {
    var b';
    keys, b' := CollectChanged(a, b);
    ListsSort(keys, ChangedKeys(a, b));
    keys := Sort(keys);
    ListsKeys(keys, ChangedKeys(a, b), a);
    ListsKeys(keys, ChangedKeys(a, b), b');
    out, rest := PrintChanged(keys, a, b');
    PrintSame(Changed, keys, a, b', a, b);
  }

  method AddedPass(b: Config) returns (keys: seq<string>, out: seq<string>)
    ensures Lists(keys, b.Keys) && out == PrintKeys(Added, keys, map[], b)
  {
    keys := SetToSeq(b.Keys);
    ListsSort(keys, b.Keys);
    keys := Sort(keys);
    ListsKeys(keys, b.Keys, b);
    out := PrintAdded(keys, b);
  }

  /** The three passes over the dictionaries. */
  method MergeDiff(a0: Config, b0: Config) returns (out: seq<string>)
    ensures Sections(a0, b0, out)
  {
    var removed, first, a := RemovedPass(a0, b0);
    KeptKeys(a0, b0, a);
    var changed, second, b := ChangedPass(a, b0);
    SameChanged(changed, a0, b0, a);
    var added, third := AddedPass(b);
    SameAdded(added, a0, b0, a, b);
    out := first + second + third;
  }

  lemma {:induction false} SameChanged(keys: seq<string>, a0: Config, b0: Config, a: Config)
    requires a == a0 - RemovedKeys(a0, b0) && Lists(keys, ChangedKeys(a0, b0))
    ensures PrintKeys(Changed, keys, a, b0) == PrintKeys(Changed, keys, a0, b0)
  {
    ListsKeys(keys, ChangedKeys(a0, b0), a);
    PrintSame(Changed, keys, a, b0, a0, b0);
  }

  lemma {:induction false} SameAdded(keys: seq<string>, a0: Config, b0: Config, a: Config, b: Config)
    requires a.Keys == a0.Keys * b0.Keys && b == b0 - a.Keys && Lists(keys, b.Keys)
    ensures b.Keys == AddedKeys(a0, b0) && PrintKeys(Added, keys, map[], b) == PrintKeys(Added, keys, map[], b0)
  {
    ListsKeys(keys, b.Keys, b);
    PrintSame(Added, keys, map[], b, map[], b0);
  }

  lemma {:induction false} KeptKeys(a0: Config, b0: Config, a: Config)
    requires a == a0 - RemovedKeys(a0, b0)
    ensures a.Keys == a0.Keys * b0.Keys && ChangedKeys(a, b0) == ChangedKeys(a0, b0)
  {
  }

  lemma {:induction false} PrintSame(op: Op, keys: seq<string>, a: Config, b: Config, a': Config, b': Config)
    requires forall i :: 0 <= i < |keys| ==>
      Lookup(a, keys[i]) == Lookup(a', keys[i]) && Lookup(b, keys[i]) == Lookup(b', keys[i])
    ensures PrintKeys(op, keys, a, b) == PrintKeys(op, keys, a', b')
    decreases |keys|
  {
    if keys == [] {
    } else {
      PrintSame(op, keys[..|keys| - 1], a, b, a', b');
    }
  }

  method SetToSeq(keys: set<string>) returns (s: seq<string>)
    ensures multiset(s) == multiset(keys)
  {
    s := [];
    ghost var done := {};
    var todo := keys;
    while todo != {}
      invariant multiset(s) == multiset(done) && done !! todo && done + todo == keys
      decreases todo
    {
      var k :| k in todo;
      Collect(s, done, k);
      s, done, todo := s + [k], done + {k}, todo - {k};
    }
  }

  // ---- the output is a patch

  /** A name with `=` in it comes from a line that ends with " is not set". */
  predicate FromFile(c: Config) {
    forall k :: k in c ==> Named(k, c[k])
  }

  predicate Named(k: string, v: string) {
    '=' in k ==> v == "n"
  }

  /** Every dictionary that is read is of this kind. */
  lemma {:induction false} ReadIsFromFile(d: Config, lines: seq<string>)
    requires FromFile(d) && ReadLines(d, lines).Some?
    ensures FromFile(ReadLines(d, lines).value)
    decreases |lines|
  {
    if lines == [] {
    } else {
      ReadIsFromFile(d, lines[..|lines| - 1]);
      ReadLineNames(ReadLines(d, lines[..|lines| - 1]).value, lines[|lines| - 1]);
    }
  }

  lemma {:induction false} ReadLineNames(d: Config, line: string)
    requires FromFile(d) && ReadLine(d, line).Some?
    ensures FromFile(ReadLine(d, line).value)
  {
    if |line| >= 7 && line[..7] == PREFIX {
      var i := IndexOf(line[7..], '=');
      assert '=' !in line[7..][..i];
    }
  }

  /** An absent option counts as `n`. */
  function Effective(c: Config, k: string): string {
    if k in c then c[k] else "n"
  }

  /** The name that reading this line sets to `n` besides setting k, when the value ends with " is not set". */
  function Shadow(k: string, v: string): string
    requires EndsNotSet(v)
  {
    SetLineEnds(k, v);
    NotSetName(SetLine(k, v))
  }

  /** The dictionary after a value has been read for a key. */
  function Wrote(d: Config, k: string, v: string): Config {
    if EndsNotSet(v) then d[k := v][Shadow(k, v) := "n"] else d[k := v]
  }

  lemma {:induction false} ReadSetLine(d: Config, k: string, v: string)
    requires '=' !in k
    ensures ReadLine(d, SetLine(k, v)) == Some(Wrote(d, k, v))
  {
    var line, tail := SetLine(k, v), k + "=" + v;
    assert line == PREFIX + tail;
    assert line[..7] == PREFIX && line[7..] == tail;
    assert tail[|k|] == '=';
    var i := IndexOf(tail, '=');
    assert tail[..|k|] == k;
    assert i == |k|;
    assert tail[|k| + 1..] == v;
    SetLineEnds(k, v);
  }

  lemma {:induction false} SetLineEnds(k: string, v: string)
    ensures EndsNotSet(SetLine(k, v)) <==> EndsNotSet(v)
  {
    var line := SetLine(k, v);
    if |v| >= 11 {
      assert line[|line| - 11..] == v[|v| - 11..];
    } else if |line| >= 11 {
      var m, at := |line| - 11, |line| - |v| - 1;
      assert line[m..][at - m] == line[at] == '=';
      assert NOT_SET[at - m] != '=';
    }
  }

  lemma {:induction false} ReadNotSetLine(d: Config, k: string)
    ensures ReadLine(d, NotSetLine(k)) == Some(d[k := "n"])
  {
    var line := NotSetLine(k);
    assert line[0] == '#' && line[|line| - 11..] == NOT_SET;
    assert line[9..|line| - 11] == k;
  }

  /** Reading what is printed for a key gives its new value, and nothing is printed for an empty one. */
  lemma {:induction false} ReadPrinted(d: Config, op: Op, k: string, value: Option<string>, newValue: Option<string>)
    requires (value.Some? ==> Named(k, value.value)) && (newValue.Some? ==> Named(k, newValue.value))
    requires if op == Removed then newValue.None? else newValue.Some?
    ensures var lines := PrintConfig(op, k, value, newValue);
      if newValue == Some("") then lines == []
      else |lines| == 1 && ReadLine(d, lines[0]) == Some(Wrote(d, k, if newValue.Some? then newValue.value else "n"))
  {
    ReadNotSetLine(d, k);
    if '=' !in k {
      ReadSetLine(d, k, "n");
      if newValue.Some? {
        ReadSetLine(d, k, newValue.value);
      }
    }
  }

  lemma {:induction false} ReadAppend(d: Config, x: seq<string>, y: seq<string>)
    ensures ReadLines(d, x + y) ==
      if ReadLines(d, x).None? then None else ReadLines(ReadLines(d, x).value, y)
    decreases |y|
  {
    if y == [] {
      assert x + y == x;
    } else {
      ReadAppend(d, x, y[..|y| - 1]);
      assert (x + y)[..|x + y| - 1] == x + y[..|y| - 1];
    }
  }

  /** The dictionary after the nonempty new values of these keys have been read. */
  function Put(d: Config, keys: seq<string>, to: Config): Config {
    if keys == [] then d
    else
      var k := keys[|keys| - 1];
      var before := Put(d, keys[..|keys| - 1], to);
      if Effective(to, k) == "" then before else Wrote(before, k, Effective(to, k))
  }

  /** Reading the new value of k also sets x to `n`. */
  predicate Masks(to: Config, k: string, x: string) {
    EndsNotSet(Effective(to, k)) && Shadow(k, Effective(to, k)) == x
  }

  /** The last key whose line touches x masks it. */
  predicate MaskedLast(to: Config, keys: seq<string>, x: string) {
    exists i :: 0 <= i < |keys| && MaskedAt(to, keys, i, x)
  }

  predicate MaskedAt(to: Config, keys: seq<string>, i: nat, x: string)
    requires i < |keys|
  {
    Masks(to, keys[i], x) && x !in keys[i + 1..]
  }

  lemma {:induction false} MaskedSnoc(to: Config, keys: seq<string>, k: string, i: nat, x: string)
    requires i < |keys|
    ensures MaskedAt(to, keys + [k], i, x) <==> x != k && MaskedAt(to, keys, i, x)
  {
    var all := keys + [k];
    assert all[i] == keys[i] && all[i + 1..] == keys[i + 1..] + [k];
  }

  lemma {:induction false} WroteAt(d: Config, k: string, v: string, x: string)
    ensures Lookup(Wrote(d, k, v), x) ==
      if EndsNotSet(v) && Shadow(k, v) == x then Some("n") else if x == k then Some(v) else Lookup(d, x)
  {
  }

  lemma {:induction false} PutAt(d: Config, keys: seq<string>, to: Config, x: string)
    ensures PutGives(d, keys, to, x, Lookup(Put(d, keys, to), x))
    decreases |keys|
  {
    if keys == [] {
    } else {
      var n := |keys| - 1;
      var front, k := keys[..n], keys[n];
      PutAt(d, front, to, x);
      assert keys == front + [k];
      MaskedNext(to, front, k, x);
      WroteAt(Put(d, front, to), k, Effective(to, k), x);
      GivesNext(d, front, k, to, x, Lookup(Put(d, front, to), x), Lookup(Put(d, keys, to), x));
    }
  }

  predicate PutGives(d: Config, keys: seq<string>, to: Config, x: string, r: Option<string>) {
    && (MaskedLast(to, keys, x) ==> r == Some("n"))
    && (!MaskedLast(to, keys, x) && x in keys && Effective(to, x) != "" ==> r == Some(Effective(to, x)))
    && (!MaskedLast(to, keys, x) && x !in keys ==> r == Lookup(d, x))
    && (Effective(to, x) == "" ==> r == Lookup(d, x) || r == Some("n"))
  }

  lemma {:induction false} GivesNext(d: Config, keys: seq<string>, k: string, to: Config, x: string,
                                     before: Option<string>, after: Option<string>)
    requires PutGives(d, keys, to, x, before)
    requires MaskedLast(to, keys + [k], x) <==> Masks(to, k, x) || (x != k && MaskedLast(to, keys, x))
    requires after ==
      if Masks(to, k, x) then Some("n")
      else if x == k && Effective(to, k) != "" then Some(Effective(to, k))
      else before
    ensures PutGives(d, keys + [k], to, x, after)
  {
    assert x in keys + [k] <==> x in keys || x == k;
  }

  lemma {:induction false} MaskedNext(to: Config, keys: seq<string>, k: string, x: string)
    ensures MaskedLast(to, keys + [k], x) <==> Masks(to, k, x) || (x != k && MaskedLast(to, keys, x))
  {
    var all := keys + [k];
    if Masks(to, k, x) {
      assert all[|keys|] == k && all[|keys| + 1..] == [];
      assert MaskedAt(to, all, |keys|, x);
    } else if x != k && MaskedLast(to, keys, x) {
      var i :| 0 <= i < |keys| && MaskedAt(to, keys, i, x);
      MaskedSnoc(to, keys, k, i, x);
    } else if MaskedLast(to, all, x) {
      var i :| 0 <= i < |all| && MaskedAt(to, all, i, x);
      MaskedSnoc(to, keys, k, i, x);
    }
  }

  /** Keys that can be printed and read back. */
  predicate Printable(op: Op, keys: seq<string>, a: Config, b: Config) {
    forall i :: 0 <= i < |keys| ==> PrintableKey(op, keys[i], a, b)
  }

  predicate PrintableKey(op: Op, k: string, a: Config, b: Config) {
    && (k in a ==> Named(k, a[k])) && (k in b ==> Named(k, b[k]))
    && if op == Removed then k !in b else k in b
  }

  lemma {:induction false} ReadPrintedKeys(d: Config, op: Op, keys: seq<string>, a: Config, b: Config)
    requires Printable(op, keys, a, b)
    ensures ReadLines(d, PrintKeys(op, keys, a, b)) == Some(Put(d, keys, b))
    decreases |keys|
  {
    if keys == [] {
    } else {
      var n := |keys| - 1;
      ReadPrintedKeys(d, op, keys[..n], a, b);
      assert PrintableKey(op, keys[n], a, b);
      ReadPrintedNext(d, PrintKeys(op, keys[..n], a, b), Put(d, keys[..n], b), op, keys[n], a, b);
    }
  }

  lemma {:induction false} ReadPrintedNext(d: Config, lines: seq<string>, before: Config, op: Op, k: string, a: Config,
                                           b: Config)
    requires PrintableKey(op, k, a, b) && ReadLines(d, lines) == Some(before)
    ensures ReadLines(d, lines + PrintConfig(op, k, Lookup(a, k), Lookup(b, k)))
         == Some(if Effective(b, k) == "" then before else Wrote(before, k, Effective(b, k)))
  {
    var last := PrintConfig(op, k, Lookup(a, k), Lookup(b, k));
    ReadPrinted(before, op, k, Lookup(a, k), Lookup(b, k));
    if last == [] {
      assert lines + last == lines;
    } else {
      assert (lines + last)[..|lines|] == lines && (lines + last)[|lines|] == last[0];
    }
  }

  lemma {:induction false} PutAppend(d: Config, x: seq<string>, y: seq<string>, to: Config)
    ensures Put(d, x + y, to) == Put(Put(d, x, to), y, to)
    decreases |y|
  {
    if y == [] {
      assert x + y == x;
    } else {
      PutAppend(d, x, y[..|y| - 1], to);
      assert (x + y)[..|x + y| - 1] == x + y[..|y| - 1];
    }
  }

  lemma {:induction false} PutSame(d: Config, keys: seq<string>, to: Config, to': Config)
    requires forall i :: 0 <= i < |keys| ==> Effective(to, keys[i]) == Effective(to', keys[i])
    ensures Put(d, keys, to) == Put(d, keys, to')
    decreases |keys|
  {
    if keys == [] {
    } else {
      PutSame(d, keys[..|keys| - 1], to, to');
    }
  }

  /** The keys that differ between the two. */
  function Differing(a: Config, b: Config): set<string> {
    RemovedKeys(a, b) + ChangedKeys(a, b) + AddedKeys(a, b)
  }

  /** The three sections of keys, in the order they are printed. */
  predicate KeySections(a: Config, b: Config, r: seq<string>, c: seq<string>, n: seq<string>) {
    Lists(r, RemovedKeys(a, b)) && Lists(c, ChangedKeys(a, b)) && Lists(n, AddedKeys(a, b))
  }

  lemma {:induction false} PatchOf(a: Config, b: Config, r: seq<string>, c: seq<string>, n: seq<string>,
                                   out: seq<string>)
    requires FromFile(a) && FromFile(b) && KeySections(a, b, r, c, n)
    requires out == PrintKeys(Removed, r, a, map[]) + PrintKeys(Changed, c, a, b) + PrintKeys(Added, n, map[], b)
    ensures ReadLines(map[], out) == Some(Put(map[], r + c + n, b))
  {
    AllPrintable(a, b, r, c, n);
    var first, second, third := PrintKeys(Removed, r, a, map[]), PrintKeys(Changed, c, a, b), PrintKeys(Added, n, map[], b);
    var d1 := Put(map[], r, b);
    var d2 := Put(d1, c, b);
    ReadPrintedKeys(map[], Removed, r, a, map[]);
    PutSame(map[], r, map[], b);
    ReadPrintedKeys(d1, Changed, c, a, b);
    ReadPrintedKeys(d2, Added, n, map[], b);
    ReadThree(first, second, third, d1, d2, Put(d2, n, b));
    PutAppend(map[], r, c, b);
    PutAppend(map[], r + c, n, b);
  }

  lemma {:induction false} AllPrintable(a: Config, b: Config, r: seq<string>, c: seq<string>, n: seq<string>)
    requires FromFile(a) && FromFile(b) && KeySections(a, b, r, c, n)
    ensures Printable(Removed, r, a, map[]) && Printable(Changed, c, a, b) && Printable(Added, n, map[], b)
    ensures forall i :: 0 <= i < |r| ==> r[i] !in b
  {
    AllWithin(r, RemovedKeys(a, b));
    AllWithin(c, ChangedKeys(a, b));
    AllWithin(n, AddedKeys(a, b));
  }

  lemma {:induction false} AllWithin(s: seq<string>, keys: set<string>)
    requires Lists(s, keys)
    ensures forall i :: 0 <= i < |s| ==> s[i] in keys
  {
    Members(s, keys);
  }

  lemma {:induction false} ReadThree(first: seq<string>, second: seq<string>, third: seq<string>, d1: Config,
                                     d2: Config, d3: Config)
    requires ReadLines(map[], first) == Some(d1) && ReadLines(d1, second) == Some(d2) && ReadLines(d2, third) == Some(d3)
    ensures ReadLines(map[], first + second + third) == Some(d3)
  {
    ReadAppend(map[], first, second);
    ReadAppend(map[], first + second, third);
  }

  // ---- the order of the lines

  /** x has a line, and it stands after the line of k: sections in order, and names in order within each. */
  predicate After(removed: set<string>, changed: set<string>, added: set<string>, k: string, x: string) {
    || (k in removed && (x in changed || x in added || (x in removed && k != x && Le(k, x))))
    || (k in changed && (x in added || (x in changed && k != x && Le(k, x))))
    || (k in added && x in added && k != x && Le(k, x))
  }

  predicate PrintedAfter(a: Config, b: Config, k: string, x: string) {
    After(RemovedKeys(a, b), ChangedKeys(a, b), AddedKeys(a, b), k, x)
  }

  lemma {:induction false} InSection(s: seq<string>, keys: set<string>, i: nat, x: string)
    requires Lists(s, keys) && i < |s|
    ensures s[i] in keys
    ensures x in s[i + 1..] <==> x in keys && s[i] != x && Le(s[i], x)
  {
    ListsNoRepeats(s, keys);
    Members(s, keys);
    if x in s[i + 1..] {
      var j :| 0 <= j < |s[i + 1..]| && s[i + 1..][j] == x;
      assert s[i + 1 + j] == x;
    }
    if x in keys && s[i] != x && Le(s[i], x) {
      var j :| 0 <= j < |s| && s[j] == x;
      if j < i {
        LeAntisymmetric(s[i], x);
      }
      assert s[i + 1..][j - i - 1] == x;
    }
  }

  predicate Apart(removed: set<string>, changed: set<string>, added: set<string>) {
    removed !! changed && removed !! added && changed !! added
  }

  lemma {:induction false} AfterInLines(r: seq<string>, c: seq<string>, n: seq<string>, removed: set<string>,
                                        changed: set<string>, added: set<string>, i: nat, x: string)
    requires Lists(r, removed) && Lists(c, changed) && Lists(n, added) && Apart(removed, changed, added)
    requires i < |r + c + n|
    ensures x in (r + c + n)[i + 1..] <==> After(removed, changed, added, (r + c + n)[i], x)
  {
    Members(c, changed);
    Members(n, added);
    var all := r + c + n;
    if i < |r| {
      InSection(r, removed, i, x);
      BehindFirst(r, c + n, i, x);
      assert r + (c + n) == all;
    } else if i < |r| + |c| {
      InSection(c, changed, i - |r|, x);
      BehindFirst(c, n, i - |r|, x);
      assert all[i] == c[i - |r|] && all[i + 1..] == (c + n)[i - |r| + 1..];
    } else {
      InSection(n, added, i - |r| - |c|, x);
      assert all[i] == n[i - |r| - |c|] && all[i + 1..] == n[i - |r| - |c| + 1..];
    }
  }

  lemma {:induction false} BehindFirst(s: seq<string>, rest: seq<string>, i: nat, x: string)
    requires i < |s|
    ensures (s + rest)[i] == s[i] && (x in (s + rest)[i + 1..] <==> x in s[i + 1..] || x in rest)
  {
    assert (s + rest)[i + 1..] == s[i + 1..] + rest;
  }

  /** The new value of some key masks x, and no later line names x. */
  ghost predicate MaskedAmong(to: Config, removed: set<string>, changed: set<string>, added: set<string>, x: string) {
    exists k :: k in removed + changed + added && Masks(to, k, x) && !After(removed, changed, added, k, x)
  }

  ghost predicate Masked(a: Config, b: Config, x: string) {
    MaskedAmong(b, RemovedKeys(a, b), ChangedKeys(a, b), AddedKeys(a, b), x)
  }

  lemma {:induction false} InLines(r: seq<string>, c: seq<string>, n: seq<string>, removed: set<string>,
                                   changed: set<string>, added: set<string>, x: string)
    requires Lists(r, removed) && Lists(c, changed) && Lists(n, added)
    ensures x in r + c + n <==> x in removed + changed + added
  {
    Members(r, removed);
    Members(c, changed);
    Members(n, added);
  }

  lemma {:induction false} MaskedInLines(to: Config, r: seq<string>, c: seq<string>, n: seq<string>,
                                         removed: set<string>, changed: set<string>, added: set<string>, x: string)
    requires Lists(r, removed) && Lists(c, changed) && Lists(n, added) && Apart(removed, changed, added)
    ensures MaskedLast(to, r + c + n, x) <==> MaskedAmong(to, removed, changed, added, x)
  {
    var all := r + c + n;
    if MaskedLast(to, all, x) {
      var i :| 0 <= i < |all| && MaskedAt(to, all, i, x);
      AfterInLines(r, c, n, removed, changed, added, i, x);
      InLines(r, c, n, removed, changed, added, all[i]);
    }
    if MaskedAmong(to, removed, changed, added, x) {
      var k :| k in removed + changed + added && Masks(to, k, x) && !After(removed, changed, added, k, x);
      InLines(r, c, n, removed, changed, added, k);
      var i :| 0 <= i < |all| && all[i] == k;
      AfterInLines(r, c, n, removed, changed, added, i, x);
      assert MaskedAt(to, all, i, x);
    }
  }

  // ---- what is read back

  /** What the output, read back, says about x. */
  ghost predicate ReadsAs(a: Config, b: Config, x: string, r: Option<string>) {
    if Masked(a, b, x) then r == Some("n")
    else if x !in Differing(a, b) then r == None
    else if Effective(b, x) != "" then r == Some(Effective(b, x))
    else r == None || r == Some("n")
  }

  /** Read back, the output gives every key that differs its new value, except where a later line masks it. */
  lemma {:induction false} DiffReadsBack(a: Config, b: Config, out: seq<string>) returns (patch: Config)
    requires FromFile(a) && FromFile(b) && Sections(a, b, out)
    ensures ReadLines(map[], out) == Some(patch)
    ensures forall x :: ReadsAs(a, b, x, Lookup(patch, x))
  {
    var r, c, n :| && Lists(r, RemovedKeys(a, b)) && Lists(c, ChangedKeys(a, b)) && Lists(n, AddedKeys(a, b))
      && out == PrintKeys(Removed, r, a, map[]) + PrintKeys(Changed, c, a, b) + PrintKeys(Added, n, map[], b);
    PatchOf(a, b, r, c, n, out);
    patch := Put(map[], r + c + n, b);
    forall x ensures ReadsAs(a, b, x, Lookup(patch, x)) {
      PutAt(map[], r + c + n, b, x);
      MaskedInLines(b, r, c, n, RemovedKeys(a, b), ChangedKeys(a, b), AddedKeys(a, b), x);
      InLines(r, c, n, RemovedKeys(a, b), ChangedKeys(a, b), AddedKeys(a, b), x);
    }
  }

  /** The option becomes empty; an empty new value is not printed. */
  predicate Emptied(a: Config, b: Config, k: string) {
    k in b && b[k] == "" && !(k in a && a[k] == "")
  }

  /** Another option's new value ends with " is not set", and reading it back sets this one to `n`. */
  ghost predicate Misread(a: Config, b: Config, k: string) {
    Masked(a, b, k) && Effective(b, k) != "n"
  }

  ghost predicate Lost(a: Config, b: Config, k: string) {
    Emptied(a, b, k) || Misread(a, b, k)
  }

  predicate Agree(c: Config, d: Config, k: string) {
    Effective(c, k) == Effective(d, k)
  }

  /**
   Laid over the old configuration the output gives the new one exactly when no option becomes empty and none is
   misread because of a value that ends with " is not set".
   */
  lemma {:induction false} DiffIsPatch(a: Config, b: Config, out: seq<string>) returns (patch: Config)
    requires FromFile(a) && FromFile(b) && Sections(a, b, out)
    ensures ReadLines(map[], out) == Some(patch)
    ensures (forall k :: Agree(a + patch, b, k)) <==> (forall k :: !Lost(a, b, k))
    ensures (forall k :: !Emptied(a, b, k) && !Masked(a, b, k)) ==> patch.Keys == Differing(a, b)
  {
    patch := DiffReadsBack(a, b, out);
    forall k ensures Agree(a + patch, b, k) <==> !Lost(a, b, k) {
      KeyPatched(a, b, patch, k);
    }
    if forall k :: !Emptied(a, b, k) && !Masked(a, b, k) {
      forall k ensures k in patch.Keys <==> k in Differing(a, b) {
        KeyPatched(a, b, patch, k);
      }
    }
  }

  lemma {:induction false} KeyPatched(a: Config, b: Config, patch: Config, k: string)
    requires ReadsAs(a, b, k, Lookup(patch, k))
    ensures Agree(a + patch, b, k) <==> !Lost(a, b, k)
    ensures !Emptied(a, b, k) && !Masked(a, b, k) ==> (k in patch <==> k in Differing(a, b))
  {
  }

  /** The same for any two files that can be read. */
  lemma {:induction false} DiffOfFiles(old': seq<string>, new': seq<string>, a: Config, b: Config, out: seq<string>)
    returns (patch: Config)
    requires ReadLines(map[], old') == Some(a) && ReadLines(map[], new') == Some(b) && Sections(a, b, out)
    ensures ReadLines(map[], out) == Some(patch)
    ensures (forall k :: Agree(a + patch, b, k)) <==> (forall k :: !Lost(a, b, k))
  {
    ReadIsFromFile(map[], old');
    ReadIsFromFile(map[], new');
    patch := DiffIsPatch(a, b, out);
  }

  /** Nothing is printed for options that become empty: the empty output does not give the option X its value. */
  lemma {:induction false} EmptyValueLost(out: seq<string>)
    requires Sections(map[], map["X" := ""], out)
    ensures out == [] && !Agree(map[], map["X" := ""], "X")
  {
    EmptiesPrintNothing(map["X" := ""], out);
  }

  lemma {:induction false} EmptiesPrintNothing(b: Config, out: seq<string>)
    requires Sections(map[], b, out) && forall k :: k in b ==> b[k] == ""
    ensures out == []
  {
    var a: Config := map[];
    var r, c, n :| && Lists(r, RemovedKeys(a, b)) && Lists(c, ChangedKeys(a, b)) && Lists(n, AddedKeys(a, b))
      && out == PrintKeys(Removed, r, a, map[]) + PrintKeys(Changed, c, a, b) + PrintKeys(Added, n, map[], b);
    AllWithin(r, RemovedKeys(a, b));
    AllWithin(c, ChangedKeys(a, b));
    AllWithin(n, AddedKeys(a, b));
    assert r == [] && c == [];
    AddsNothing(n, b);
  }

  lemma {:induction false} AddsNothing(keys: seq<string>, b: Config)
    requires forall i :: 0 <= i < |keys| ==> keys[i] in b && b[keys[i]] == ""
    ensures PrintKeys(Added, keys, map[], b) == []
    decreases |keys|
  {
    if keys == [] {
    } else {
      AddsNothing(keys[..|keys| - 1], b);
    }
  }

  /** A value that ends with " is not set" sets the option A, printed before it, back to `n`. */
  lemma {:induction false} ValueMisread()
    ensures Misread(map[], map["A" := "y", "X" := "A is not set"], "A")
  {
    var a: Config, b: Config := map[], map["A" := "y", "X" := "A is not set"];
    var v := "A is not set";
    assert v[1..] == NOT_SET;
    SetLineEnds("X", v);
    assert SetLine("X", v)[9..10] == "A";
    assert Masks(b, "X", "A");
    assert "X" in Differing(a, b) && !PrintedAfter(a, b, "X", "A");
  }

  /** Whatever character ends a line is dropped: lines printed with newlines are read as they are. */
  lemma {:induction false} PrintedLines(out: seq<string>, ends: string)
    requires |ends| == |out|
    ensures Chopped(seq(|out|, i requires 0 <= i < |out| => out[i] + [ends[i]])) == out
  {
  }
}
