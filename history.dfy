/**
 * The prompt's command history: a list of committed lines, newest first,
 * a navigation cursor `current_pos` (0 is "the line being edited", k is the
 * k-th newest entry) and `original_line`, the text that was being edited when
 * navigation first happened on this object.
 */
module HistoryLog {
  import opened Wrappers
  import opened Keysyms

  /** The navigation part of a history: the cursor and the saved line. */
  datatype Nav = Nav(pos: int, original: Option<string>)

  /** The cursor is within `[0, len(entries)]`. */
  predicate NavOk(entries: seq<string>, n: Nav)
  {
    0 <= n.pos <= |entries|
  }

  /** `original_line` after a navigation call: set on the first call, kept afterwards. */
  function Capture(original: Option<string>, txt: string): (r: Option<string>)
    ensures r.Some?
    ensures original.Some? ==> r == original
  {
    if original == None then Some(txt) else original
  }

  /** The line shown at cursor `pos`: the saved line at 0, the pos-th newest entry otherwise. */
  function LineAt(entries: seq<string>, pos: int, original: Option<string>): (r: Option<string>)
    requires 0 <= pos <= |entries|
    ensures pos > 0 ==> r == Some(entries[pos - 1])
  {
    if pos == 0 then original else Some(entries[pos - 1])
  }

  /**
   * `History.handleKeySym(keysym, txt)`: the new navigation state and the
   * line to put in the buffer, or `None` when the key changes nothing.
   */
  function NavStep(entries: seq<string>, n: Nav, keysym: nat, txt: string): (r: (Nav, Option<string>))
    requires NavOk(entries, n)
    ensures NavOk(entries, r.0)
    ensures r.0.original == Capture(n.original, txt)
    ensures r.1 == None <==>
      entries == [] || (keysym == UP && n.pos == |entries|) || (keysym == DOWN && n.pos == 0)
    ensures r.1 == None ==> r.0.pos == n.pos
    ensures r.1 != None ==> r.1 == LineAt(entries, r.0.pos, r.0.original)
    ensures entries != [] && keysym == UP && n.pos < |entries| ==> r.0.pos == n.pos + 1
    ensures entries != [] && keysym == DOWN && n.pos > 0 ==> r.0.pos == n.pos - 1
    ensures entries != [] && keysym == PAGE_UP ==> r.0.pos == |entries|
    ensures entries != [] && keysym == PAGE_DOWN ==> r.0.pos == 0
    ensures !IsHistoryKey(keysym) ==> r.0.pos == n.pos
  {
    var original := Capture(n.original, txt);
    if entries == [] then (Nav(n.pos, original), None)
    else if keysym == UP && n.pos >= |entries| then (Nav(n.pos, original), None)
    else if keysym == DOWN && n.pos <= 0 then (Nav(n.pos, original), None)
    else
      var pos :=
        if keysym == UP then n.pos + 1
        else if keysym == DOWN then n.pos - 1
        else if keysym == PAGE_UP then |entries|
        else if keysym == PAGE_DOWN then 0
        else n.pos;
      (Nav(pos, original), LineAt(entries, pos, original))
  }

  /** Handling the keys one after another with the same edited text: the final state and every result. */
  function NavRun(entries: seq<string>, n: Nav, keys: seq<nat>, txt: string): (r: (Nav, seq<Option<string>>))
    requires NavOk(entries, n)
    ensures NavOk(entries, r.0) && |r.1| == |keys|
    ensures keys != [] ==> r.0.original == Capture(n.original, txt)
    ensures keys == [] ==> r.0 == n
    decreases |keys|
  {
    if keys == [] then (n, [])
    else
      var (n1, res) := NavStep(entries, n, keys[0], txt);
      var (n2, rest) := NavRun(entries, n1, keys[1..], txt);
      (n2, [res] + rest)
  }

  /** `k` presses of the same key. */
  function Repeat(key: nat, k: nat): (r: seq<nat>)
    ensures |r| == k && forall i :: 0 <= i < k ==> r[i] == key
  {
    if k == 0 then [] else [key] + Repeat(key, k - 1)
  }

  /** Running `a` then `b` is running `a + b`. */
  lemma {:induction false} NavRunAppend(entries: seq<string>, n: Nav, a: seq<nat>, b: seq<nat>, txt: string)
    requires NavOk(entries, n)
    ensures var ra := NavRun(entries, n, a, txt);
            var rb := NavRun(entries, ra.0, b, txt);
            NavRun(entries, n, a + b, txt) == (rb.0, ra.1 + rb.1)
    decreases |a|
  {
    if a != [] {
      assert (a + b)[0] == a[0] && (a + b)[1..] == a[1..] + b;
      var (n1, res) := NavStep(entries, n, a[0], txt);
      NavRunAppend(entries, n1, a[1..], b, txt);
      var ra' := NavRun(entries, n1, a[1..], txt);
      var rb := NavRun(entries, ra'.0, b, txt);
      assert NavRun(entries, n, a, txt) == (ra'.0, [res] + ra'.1);
      assert NavRun(entries, n1, a[1..] + b, txt) == (rb.0, ra'.1 + rb.1);
      assert NavRun(entries, n, a + b, txt) == (rb.0, [res] + (ra'.1 + rb.1));
      assert [res] + (ra'.1 + rb.1) == ([res] + ra'.1) + rb.1;
    } else {
      assert a + b == b;
      var rb := NavRun(entries, n, b, txt);
      assert [] + rb.1 == rb.1;
    }
  }

  /** `k` Ups from cursor `p` (with room for them) show the entries `p .. p+k-1` in turn. */
  lemma {:induction false} UpRun(entries: seq<string>, n: Nav, k: nat, txt: string)
    requires NavOk(entries, n) && n.pos + k <= |entries|
    ensures var r := NavRun(entries, n, Repeat(UP, k), txt);
            r.0.pos == n.pos + k &&
            forall i :: 0 <= i < k ==> r.1[i] == Some(entries[n.pos + i])
    decreases k
  {
    if k > 0 {
      var (n1, res) := NavStep(entries, n, UP, txt);
      UpRun(entries, n1, k - 1, txt);
      assert Repeat(UP, k)[1..] == Repeat(UP, k - 1);
    }
  }

  /** `k` Downs from cursor `p >= k` walk back, showing the saved line on reaching 0. */
  lemma {:induction false} DownRun(entries: seq<string>, n: Nav, k: nat, txt: string)
    requires NavOk(entries, n) && k <= n.pos
    ensures var r := NavRun(entries, n, Repeat(DOWN, k), txt);
            r.0.pos == n.pos - k &&
            forall i :: 0 <= i < k ==> r.1[i] == LineAt(entries, n.pos - 1 - i, Capture(n.original, txt))
    decreases k
  {
    if k > 0 {
      var (n1, res) := NavStep(entries, n, DOWN, txt);
      DownRun(entries, n1, k - 1, txt);
      assert Repeat(DOWN, k)[1..] == Repeat(DOWN, k - 1);
    }
  }

  /**
   * From the edited line, k Ups followed by k Downs (k at most the number
   * of entries) show the k newest entries and then bring back the line that
   * was being edited when navigation started.
   */
  lemma UpsThenDownsRestore(entries: seq<string>, n: Nav, k: nat, txt: string)
    requires n.pos == 0 && 1 <= k <= |entries|
    ensures var ups := NavRun(entries, n, Repeat(UP, k), txt);
            var downs := NavRun(entries, ups.0, Repeat(DOWN, k), txt);
            (forall i :: 0 <= i < k ==> ups.1[i] == Some(entries[i])) &&
            downs.0.pos == 0 && downs.1[k - 1] == Capture(n.original, txt)
  {
    UpRun(entries, n, k, txt);
    var ups := NavRun(entries, n, Repeat(UP, k), txt);
    DownRun(entries, ups.0, k, txt);
  }

  /** Page_Up then Page_Down: the oldest entry, then the saved line, in one key each. */
  lemma PageUpThenDownRestores(entries: seq<string>, n: Nav, txt: string)
    requires NavOk(entries, n) && entries != []
    ensures NavRun(entries, n, [PAGE_UP, PAGE_DOWN], txt) ==
      (Nav(0, Capture(n.original, txt)), [Some(entries[|entries| - 1]), Capture(n.original, txt)])
  {
    var keys := [PAGE_UP, PAGE_DOWN];
    assert keys[0] == PAGE_UP && keys[1..] == [PAGE_DOWN];
    var (n1, r1) := NavStep(entries, n, PAGE_UP, txt);
    NavRunSingle(entries, n1, PAGE_DOWN, txt);
    var (n2, r2) := NavStep(entries, n1, PAGE_DOWN, txt);
    assert NavRun(entries, n, keys, txt) == (n2, [r1] + [r2]);
    assert [r1] + [r2] == [r1, r2];
  }

  /** A single key press as a run. */
  lemma NavRunSingle(entries: seq<string>, n: Nav, key: nat, txt: string)
    requires NavOk(entries, n)
    ensures NavRun(entries, n, [key], txt) == (NavStep(entries, n, key, txt).0, [NavStep(entries, n, key, txt).1])
  {
    assert [key][0] == key && [key][1..] == [];
    var (n1, res) := NavStep(entries, n, key, txt);
    assert NavRun(entries, n1, [], txt) == (n1, []);
    assert [res] + [] == [res];
  }

  /** A history of one prompt session, transient or persistent. */
  class History {
    /** Whether `cleanup()` writes the list to the history file. */
    const persistent: bool
    var entries: seq<string>
    var currentPos: int
    var originalLine: Option<string>
    /** What the history file holds: what was loaded, then what the last `cleanup()` wrote. */
    var stored: seq<string>

    ghost predicate Valid()
      reads this
    {
      NavOk(entries, Nav(currentPos, originalLine))
    }

    function NavState(): Nav
      reads this
    {
      Nav(currentPos, originalLine)
    }

    /** `TransientHistory`: an empty history that is never written anywhere. */
    constructor Transient()
      ensures Valid() && !persistent
      ensures entries == [] && currentPos == 0 && originalLine == None && stored == []
    {
      persistent := false;
      entries, currentPos, originalLine, stored := [], 0, None, [];
    }

    /**
     * `PersistentHistory`, given what its history file decodes to (the
     * empty list when there is no file or it does not hold a list).
     */
    constructor Persistent(loaded: seq<string>)
      ensures Valid() && persistent
      ensures entries == loaded && currentPos == 0 && originalLine == None && stored == loaded
    {
      persistent := true;
      entries, currentPos, originalLine, stored := loaded, 0, None, loaded;
    }

    /** `handleKeySym(keysym, txt)`. */
    method HandleKeySym(keysym: nat, txt: string) returns (line: Option<string>)
      requires Valid()
      modifies this
      ensures Valid()
      ensures entries == old(entries) && stored == old(stored)
      ensures (NavState(), line) == NavStep(entries, old(NavState()), keysym, txt)
    {
      if originalLine == None {
        originalLine := Some(txt);
      }
      if entries == [] {
        return None;
      }
      if keysym == UP {
        if currentPos < |entries| {
          currentPos := currentPos + 1;
        } else {
          return None;
        }
      } else if keysym == DOWN {
        if currentPos > 0 {
          currentPos := currentPos - 1;
        } else {
          return None;
        }
      } else if keysym == PAGE_UP {
        currentPos := |entries|;
      } else if keysym == PAGE_DOWN {
        currentPos := 0;
      }
      if currentPos == 0 {
        line := originalLine;
      } else {
        line := Some(entries[currentPos - 1]);
      }
    }

    /** `insert(0, line)`: the committed line becomes the newest entry; the cursor stays. */
    method InsertNewest(line: string)
      requires Valid()
      modifies this
      ensures Valid()
      ensures entries == [line] + old(entries)
      ensures NavState() == old(NavState()) && stored == old(stored)
    {
      entries := [line] + entries;
    }

    /** `cleanup()`: a persistent history writes its list out; a transient one does nothing. */
    method Cleanup()
      requires Valid()
      modifies this`stored
      ensures stored == if persistent then entries else old(stored)
    {
      if persistent {
        stored := entries;
      }
    }
  }
}
