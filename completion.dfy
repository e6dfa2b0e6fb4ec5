/**
 * Tab completion: the no-op completer and the two cyclic completers of the
 * prompt widget (group names and commands). A cyclic completer builds its
 * lookup list of `(display, actual)` tuples once, on the first `complete`
 * after a reset: the matches in sorted order followed by one sentinel tuple
 * made of the typed text (lower-cased by the group completer). Each
 * `complete` then moves the offset one step along that list, wrapping to 0
 * past the end, records the actual half and returns the display half.
 */
module Completion {
  import opened Wrappers
  import opened Text
  import opened Candidates

  /** The completion mode chosen when input starts: None, "group" or "cmd". */
  datatype Mode = NoCompletion | GroupMode | CmdMode

  /**
   * What the completers read from outside the prompt: the names of the
   * window manager's groups (the keys of `groupMap`, in whatever order the
   * dictionary yields them) and the result of the filesystem scan for a
   * typed text (the executables found, as `(display, actual)` tuples).
   */
  datatype Host = Host(groupNames: seq<string>, scan: string -> seq<Candidate>)

  /** `NullCompleter.complete`: the text comes back unchanged. */
  function NullComplete(txt: string): (r: string)
    ensures |r| == |txt| && StartsWith(r, txt)
  {
    txt
  }

  /**
   * The state of a cyclic completer. An empty `lookup` stands for Python's
   * `None` (both fail `if not self.lookup`); `thisfinal` is the actual half
   * of the last candidate returned, if any.
   */
  datatype Cursor = Cursor(lookup: seq<Candidate>, offset: int, thisfinal: Option<string>)

  /** Once a lookup list exists, the offset indexes it. */
  predicate CursorOk(c: Cursor)
  {
    c.lookup != [] ==> 0 <= c.offset < |c.lookup|
  }

  /** A freshly built lookup list: the sorted matches, then the sentinel. */
  function Build(matches: seq<Candidate>, sentinel: string): (r: seq<Candidate>)
    ensures |r| == |matches| + 1
    ensures r[|matches|] == Candidate(sentinel, sentinel)
    ensures Sorted(r[..|matches|]) && multiset(r[..|matches|]) == multiset(matches)
  {
    var sorted := Sort(matches);
    assert (sorted + [Candidate(sentinel, sentinel)])[..|matches|] == sorted;
    sorted + [Candidate(sentinel, sentinel)]
  }

  /** The offset after one step: one further along, wrapping to 0 past the end. */
  function Advance(offset: int, n: nat): (r: int)
    requires 0 < n && -1 <= offset < n
    ensures 0 <= r < n
    ensures r == (offset + 1) % n
  {
    if offset + 1 >= n then 0 else offset + 1
  }

  /**
   * One `complete` call of a cyclic completer whose matches (were the list
   * to be built now) are `matches` and whose sentinel text is `sentinel`.
   * Returns the new state and the display string handed back.
   */
  function Step(c: Cursor, matches: seq<Candidate>, sentinel: string): (r: (Cursor, string))
    requires CursorOk(c)
    ensures CursorOk(r.0) && r.0.lookup != []
    ensures r.0.lookup == if c.lookup == [] then Build(matches, sentinel) else c.lookup
    ensures r.0.offset == if c.lookup == [] then 0 else (c.offset + 1) % |c.lookup|
    ensures r.0.thisfinal == Some(r.0.lookup[r.0.offset].actual)
    ensures r.1 == r.0.lookup[r.0.offset].display
  {
    var lookup := if c.lookup == [] then Build(matches, sentinel) else c.lookup;
    var offset := Advance(if c.lookup == [] then -1 else c.offset, |lookup|);
    var ret := lookup[offset];
    (Cursor(lookup, offset, Some(ret.actual)), ret.display)
  }

  /** While a lookup list is cached, neither the matches nor the typed text matter. */
  lemma CachedStepIgnoresText(c: Cursor, m1: seq<Candidate>, s1: string, m2: seq<Candidate>, s2: string)
    requires CursorOk(c) && c.lookup != []
    ensures Step(c, m1, s1) == Step(c, m2, s2)
  {
  }

  /** `k` successive `complete` calls: the final state and the displays returned, in order. */
  function Steps(c: Cursor, matches: seq<Candidate>, sentinel: string, k: nat): (r: (Cursor, seq<string>))
    requires CursorOk(c)
    ensures CursorOk(r.0) && |r.1| == k
    ensures k > 0 ==> r.0.lookup != []
  {
    if k == 0 then (c, [])
    else
      var (c1, ds) := Steps(c, matches, sentinel, k - 1);
      var (c2, d) := Step(c1, matches, sentinel);
      (c2, ds + [d])
  }

  /**
   * From a completer with no lookup list, after `k > 0` calls the lookup
   * is the built list, the offset is `(k - 1) mod len(lookup)` and
   * `thisfinal` is the actual half of the entry there.
   */
  lemma {:induction false} StepsOffset(c: Cursor, matches: seq<Candidate>, sentinel: string, k: nat)
    requires CursorOk(c) && c.lookup == [] && k > 0
    ensures var lookup := Build(matches, sentinel);
            var r := Steps(c, matches, sentinel, k).0;
            r.lookup == lookup && r.offset == (k - 1) % |lookup| &&
            r.thisfinal == Some(lookup[r.offset].actual)
  {
    if k > 1 {
      StepsOffset(c, matches, sentinel, k - 1);
      var prev := Steps(c, matches, sentinel, k - 1).0;
      CachedStepOffset(prev, matches, sentinel, k - 2);
    }
  }

  /** A call on a cached list whose offset is `j mod len` moves the offset to `(j + 1) mod len`. */
  lemma CachedStepOffset(c: Cursor, matches: seq<Candidate>, sentinel: string, j: nat)
    requires CursorOk(c) && c.lookup != [] && c.offset == j % |c.lookup|
    ensures Step(c, matches, sentinel).0.lookup == c.lookup
    ensures Step(c, matches, sentinel).0.offset == (j + 1) % |c.lookup|
  {
    ModSucc(j, |c.lookup|);
  }

  /** The first `i + 1` displays of a longer run are those of the run of `i + 1` calls. */
  lemma {:induction false} StepsPrefix(c: Cursor, matches: seq<Candidate>, sentinel: string, k: nat, i: nat)
    requires CursorOk(c) && i < k
    ensures Steps(c, matches, sentinel, k).1[i] == Steps(c, matches, sentinel, i + 1).1[i]
  {
    if i < k - 1 {
      StepsPrefix(c, matches, sentinel, k - 1, i);
      var ds := Steps(c, matches, sentinel, k - 1).1;
      var d := Step(Steps(c, matches, sentinel, k - 1).0, matches, sentinel).1;
      assert Steps(c, matches, sentinel, k).1 == ds + [d];
      assert (ds + [d])[i] == ds[i];
    }
  }

  /**
   * From a completer with no lookup list, `k` calls return the display
   * halves of the built list in order, starting over at its head after the
   * sentinel: the i-th call returns `lookup[i % len(lookup)]`.
   */
  lemma StepsCycle(c: Cursor, matches: seq<Candidate>, sentinel: string, k: nat)
    requires CursorOk(c) && c.lookup == []
    ensures var lookup := Build(matches, sentinel);
            var ds := Steps(c, matches, sentinel, k).1;
            forall i :: 0 <= i < k ==> ds[i] == lookup[i % |lookup|].display
  ensures var lookup := Build(matches, sentinel);
          var last := Steps(c, matches, sentinel, k).0;
          k > 0 ==> last.offset == (k - 1) % |lookup| && last.thisfinal == Some(lookup[(k - 1) % |lookup|].actual)
  {
    if k > 0 {
      StepsOffset(c, matches, sentinel, k);
    }
    forall i | 0 <= i < k
      ensures Steps(c, matches, sentinel, k).1[i] == Build(matches, sentinel)[i % |Build(matches, sentinel)|].display
    {
      StepsPrefix(c, matches, sentinel, k, i);
      StepsOffset(c, matches, sentinel, i + 1);
    }
  }

  lemma ModSucc(a: nat, n: nat)
    requires n > 0
    ensures (a % n + 1) % n == (a + 1) % n
  {
    var q, r := a / n, a % n;
    if r + 1 < n {
      ModUnique(a + 1, q, r + 1, n);
      ModUnique(r + 1, 0, r + 1, n);
    } else {
      ModUnique(a + 1, q + 1, 0, n);
      ModUnique(r + 1, 1, 0, n);
    }
  }

  /** The remainder is the only value in [0, n) that differs from x by a multiple of n. */
  lemma ModUnique(x: int, q: int, r: int, n: int)
    requires n > 0 && 0 <= r < n && x == q * n + r
    ensures x % n == r
  {
    var q' := x / n;
    if q' < q {
      MulMonotone(q' + 1, q, n);
      assert false;
    } else if q < q' {
      MulMonotone(q + 1, q', n);
      assert false;
    }
  }

  lemma MulMonotone(a: int, b: int, n: int)
    requires a <= b && 0 <= n
    ensures a * n + (b - a) * n == b * n && (b - a) * n >= 0
  {
  }

  /**
   * With N real matches the lookup list has N + 1 entries, so the call
   * after N + 1 further calls shows the first candidate again; when there
   * are no matches every call returns the sentinel, the typed text
   * (lower-cased by the group completer).
   */
  lemma CycleCloses(c: Cursor, matches: seq<Candidate>, sentinel: string)
    requires CursorOk(c) && c.lookup == []
    ensures var ds := Steps(c, matches, sentinel, |matches| + 2).1;
            ds[|matches| + 1] == ds[0] &&
            ds[0] == (if matches == [] then sentinel else Sort(matches)[0].display)
  {
    StepsCycle(c, matches, sentinel, |matches| + 2);
    var lookup := Build(matches, sentinel);
    assert (|matches| + 1) % |lookup| == 0;
    if matches != [] {
      assert lookup[0] == lookup[..|matches|][0];
    }
  }

  /**
   * The group-name matches, in registry order: every name whose lower-case
   * form starts with `low`, as a `(name, name)` tuple.
   */
  function GroupMatches(names: seq<string>, low: string): (r: seq<Candidate>)
    ensures |r| <= |names|
    ensures forall c :: c in r <==>
      c.display == c.actual && c.display in names && StartsWith(Lower(c.display), low)
  {
    if names == [] then []
    else
      var init, last := names[..|names| - 1], names[|names| - 1];
      assert names == init + [last];
      var rest := GroupMatches(init, low);
      if StartsWith(Lower(last), low) then rest + [Candidate(last, last)] else rest
  }

  /** Each name contributes its tuple exactly as often as it occurs in the registry. */
  lemma {:induction false} GroupMatchesCount(names: seq<string>, low: string, c: Candidate)
    ensures multiset(GroupMatches(names, low))[c] ==
      if c.display == c.actual && StartsWith(Lower(c.display), low) then multiset(names)[c.display] else 0
  {
    if names != [] {
      var init, last := names[..|names| - 1], names[|names| - 1];
      assert names == init + [last];
      GroupMatchesCount(init, low, c);
      assert multiset(names) == multiset(init) + multiset{last};
    }
  }

  /** The lookup list a group completer builds for `txt`. */
  function GroupLookup(names: seq<string>, txt: string): (r: seq<Candidate>)
    ensures |r| == |GroupMatches(names, Lower(txt))| + 1
    ensures r[|r| - 1] == Candidate(Lower(txt), Lower(txt))
  {
    Build(GroupMatches(names, Lower(txt)), Lower(txt))
  }

  /** The group completer's list does not depend on the order the registry yields its names in. */
  lemma GroupLookupIgnoresOrder(names1: seq<string>, names2: seq<string>, txt: string)
    requires multiset(names1) == multiset(names2)
    ensures GroupLookup(names1, txt) == GroupLookup(names2, txt)
  {
    var low := Lower(txt);
    forall c ensures multiset(GroupMatches(names1, low))[c] == multiset(GroupMatches(names2, low))[c] {
      GroupMatchesCount(names1, low, c);
      GroupMatchesCount(names2, low, c);
    }
    assert multiset(GroupMatches(names1, low)) == multiset(GroupMatches(names2, low));
    SortIgnoresOrder(GroupMatches(names1, low), GroupMatches(names2, low));
  }

  /** Group completion ignores case in what was typed: "GR" and "gr" build the same list. */
  lemma GroupLookupIgnoresCase(names: seq<string>, txt: string)
    ensures GroupLookup(names, txt) == GroupLookup(names, Lower(txt))
  {
    LowerIdempotent(txt);
  }

  /**
   * One `complete` call in the given mode. The no-op completer hands the
   * text back and keeps no state. A cyclic completer returns the display
   * half of the tuple at the new offset and records its actual half; with a
   * cached list it keeps the list and moves one step round it, and without
   * one it builds the list (the group list for the lower-cased text, or the
   * scan of the text as typed followed by the text itself) and starts at its
   * head.
   */
  function CompleteResult(mode: Mode, c: Cursor, txt: string, host: Host): (r: (Cursor, string))
    requires CursorOk(c)
    ensures CursorOk(r.0)
    ensures mode == NoCompletion ==> r == (c, txt)
    ensures mode != NoCompletion ==>
              r.0.lookup != [] && r.1 == r.0.lookup[r.0.offset].display &&
              r.0.thisfinal == Some(r.0.lookup[r.0.offset].actual)
    ensures mode != NoCompletion && c.lookup != [] ==>
              r.0.lookup == c.lookup && r.0.offset == (c.offset + 1) % |c.lookup|
    ensures mode == GroupMode && c.lookup == [] ==>
              r.0.lookup == GroupLookup(host.groupNames, txt) && r.0.offset == 0
    ensures mode == CmdMode && c.lookup == [] ==>
              r.0.lookup == Build(host.scan(txt), txt) && r.0.offset == 0
  {
    match mode
    case NoCompletion => (c, NullComplete(txt))
    case GroupMode => Step(c, GroupMatches(host.groupNames, Lower(txt)), Lower(txt))
    case CmdMode => Step(c, host.scan(txt), txt)
  }

  /**
   * A completer of the prompt, of one of the three kinds. The no-op kind
   * never touches the fields.
   */
  class Completer {
    const mode: Mode
    var lookup: seq<Candidate>
    var offset: int
    var thisfinal: Option<string>

    ghost predicate Valid()
      reads this
    {
      CursorOk(State()) && (mode == NoCompletion ==> lookup == [] && thisfinal == None)
    }

    function State(): Cursor
      reads this
    {
      Cursor(lookup, offset, thisfinal)
    }

    /** A completer with no lookup list and nothing selected yet. */
    constructor (mode: Mode)
      ensures Valid() && this.mode == mode
      ensures lookup == [] && thisfinal == None
    {
      this.mode := mode;
      lookup, offset := [], -1;
      thisfinal := None;
    }

    /** `actual()`: the actual half of the last candidate returned, `None` before the first. */
    function Actual(): (r: Option<string>)
      reads this
      requires Valid()
      ensures mode == NoCompletion ==> r == None
      ensures mode != NoCompletion ==> r == thisfinal
    {
      thisfinal
    }

    /** The offset advance shared by both `complete` methods: one step along the built lookup list. */
    method Cycle() returns (display: string)
      requires lookup != [] && -1 <= offset < |lookup|
      modifies this
      ensures lookup == old(lookup)
      ensures offset == Advance(old(offset), |lookup|)
      ensures thisfinal == Some(lookup[offset].actual)
      ensures display == lookup[offset].display
    {
      offset := offset + 1;
      if offset >= |lookup| {
        offset := 0;
      }
      var ret := lookup[offset];
      thisfinal := Some(ret.actual);
      display := ret.display;
    }

    /** `reset()`: forget the lookup list, so the next call rebuilds it. */
    method Reset()
      requires Valid()
      modifies this
      ensures Valid()
      ensures lookup == [] && offset == -1 && thisfinal == old(thisfinal)
    {
      lookup := [];
      offset := -1;
    }

    /** `GroupCompleter.complete`. */
    method CompleteGroup(txt: string, groupNames: seq<string>) returns (display: string)
      requires Valid() && mode == GroupMode
      modifies this
      ensures Valid()
      ensures (State(), display) == Step(old(State()), GroupMatches(groupNames, Lower(txt)), Lower(txt))
    {
      var low := Lower(txt);
      if lookup == [] {
        var found: seq<Candidate> := [];
        var i := 0;
        while i < |groupNames|
          invariant 0 <= i <= |groupNames|
          invariant found == GroupMatches(groupNames[..i], low)
        {
          assert groupNames[..i + 1][..i] == groupNames[..i];
          if StartsWith(Lower(groupNames[i]), low) {
            found := found + [Candidate(groupNames[i], groupNames[i])];
          }
          i := i + 1;
        }
        assert groupNames[..i] == groupNames;
        lookup := Sort(found);
        offset := -1;
        lookup := lookup + [Candidate(low, low)];
      }
      display := Cycle();
    }

    /**
     * `CommandCompleter.complete`, given the result of the filesystem scan
     * for `txt` (used only when the lookup list is built).
     */
    method CompleteCommand(txt: string, matches: seq<Candidate>) returns (display: string)
      requires Valid() && mode == CmdMode
      modifies this
      ensures Valid()
      ensures (State(), display) == Step(old(State()), matches, txt)
    {
      if lookup == [] {
        lookup := Sort(matches);
        offset := -1;
        lookup := lookup + [Candidate(txt, txt)];
      }
      display := Cycle();
    }

    /** `self.completer.complete(txt)`, whichever kind the completer is. */
    method Complete(txt: string, host: Host) returns (display: string)
      requires Valid()
      modifies this
      ensures Valid()
      ensures (State(), display) == CompleteResult(mode, old(State()), txt, host)
    {
      match mode
      case NoCompletion =>
        display := NullComplete(txt);
      case GroupMode =>
        display := CompleteGroup(txt, host.groupNames);
      case CmdMode =>
        display := CompleteCommand(txt, host.scan(txt));
    }
  }
}
