/**
 * The state logic of the classroom console page, without its DOM, microphone
 * and download plumbing: the clip ledger kept under `cc_clips`, the carrot
 * and reset counters kept under `cc_carrots` and `cc_resets`, the meter
 * percentage, the weekly digest, the note escaping of the HTML export and the
 * clear-all handler.
 */
module Console {
  import opened JsonCodec
  import Db

  const ClipsKey: string := "cc_clips"
  const CarrotsKey: string := "cc_carrots"
  const ResetsKey: string := "cc_resets"

  /** A clip entry as the save handler builds it; `audio` is the recording's object URL. */
  datatype Clip = Clip(ts: int, tag: string, note: string, audio: string)

  /** The stored form of a clip entry: an object with keys ts, tag, note and audio. */
  function ClipJson(c: Clip): (j: Json)
    ensures WellFormed(j) && j.Obj?
    ensures Lookup(j.members, "ts") == Some(Num(c.ts))
    ensures Lookup(j.members, "tag") == Some(Str(c.tag))
    ensures Lookup(j.members, "note") == Some(Str(c.note))
    ensures Lookup(j.members, "audio") == Some(Str(c.audio))
  {
    var m3 := [Member("audio", Str(c.audio))];
    var m2 := [Member("note", Str(c.note))] + m3;
    var m1 := [Member("tag", Str(c.tag))] + m2;
    var ms := [Member("ts", Num(c.ts))] + m1;
    assert "audio"[0] == 'a' && "tag"[0] == 't' && "note"[0] == 'n';
    assert ms[1..] == m1 && m1[1..] == m2 && m2[1..] == m3 && m3 == [m3[0]] + [];
    LookupCons(m3[0], [], "ts");
    LookupCons(m3[0], [], "tag");
    LookupCons(m3[0], [], "note");
    LookupCons(m3[0], [], "audio");
    LookupCons(m2[0], m3, "audio");
    LookupCons(m1[0], m2, "audio");
    LookupCons(m2[0], m3, "ts");
    LookupCons(m2[0], m3, "tag");
    LookupCons(m1[0], m2, "ts");
    LookupCons(m1[0], m2, "note");
    assert Lookup(m3, "note").None? && Lookup(m2, "tag").None? && Lookup(m1, "ts").None?;
    assert DistinctKeys(m3) && DistinctKeys(m2);
    assert DistinctKeys(m1);
    assert DistinctKeys(ms);
    Obj(ms)
  }

  /**
   * `DB.get('cc_clips', [])` as the list the handlers work on. None when the
   * stored value is not an array: `push`, `filter` and `reverse` then throw.
   */
  function Ledger(items: map<string, string>): (r: Option<seq<Json>>)
    ensures r.Some? ==> forall i :: 0 <= i < |r.value| ==> WellFormed(r.value[i])
    ensures ClipsKey !in items ==> r == Some([])
  {
    var list := Db.Get(items, ClipsKey, Arr([]));
    assert ClipsKey !in items ==> list == Arr([]) by {
      if ClipsKey !in items {
        Db.GetMissing(items, ClipsKey, Arr([]));
      }
    }
    match list
    case Arr(xs) => Some(xs)
    case _ => None
  }

  // ---------------------------------------------------------------------------
  // Note trimming (String.prototype.trim)
  // ---------------------------------------------------------------------------

  /** The WhiteSpace and LineTerminator code points of ECMAScript, which `trim` removes. */
  predicate IsJsSpace(c: char)
  {
    c == '\t' || c == '\n' || c == '\U{B}' || c == '\U{C}' || c == '\r' || c == ' '
    || c == '\U{A0}' || c == '\U{1680}' || ('\U{2000}' <= c <= '\U{200A}')
    || c == '\U{2028}' || c == '\U{2029}' || c == '\U{202F}' || c == '\U{205F}'
    || c == '\U{3000}' || c == '\U{FEFF}'
  }

  /** The first index at or after `i` that does not hold whitespace, or `|s|`. */
  function SkipSpaces(s: string, i: nat): (n: nat)
    requires i <= |s|
    ensures i <= n <= |s|
    ensures forall k :: i <= k < n ==> IsJsSpace(s[k])
    ensures n == |s| || !IsJsSpace(s[n])
    decreases |s| - i
  {
    if i < |s| && IsJsSpace(s[i]) then SkipSpaces(s, i + 1) else i
  }

  /** The end of `s[lo..j]` once its trailing whitespace is dropped. */
  function SkipSpacesBack(s: string, lo: nat, j: nat): (m: nat)
    requires lo <= j <= |s|
    ensures lo <= m <= j
    ensures forall k :: m <= k < j ==> IsJsSpace(s[k])
    ensures m == lo || !IsJsSpace(s[m - 1])
    decreases j
  {
    if lo < j && IsJsSpace(s[j - 1]) then SkipSpacesBack(s, lo, j - 1) else j
  }

  /** `s.trim()`: `s` without its leading and trailing whitespace, so never longer than `s`. */
  function Trim(s: string): (r: string)
    ensures |r| <= |s|
  {
    var start := SkipSpaces(s, 0);
    s[start..SkipSpacesBack(s, start, |s|)]
  }

  /**
   * What `trim` promises: the result is the slice `s[a..b]` such that every
   * character outside it is whitespace, and it is empty or starts and ends
   * with a non-whitespace character.
   */
  lemma TrimSlice(s: string)
    ensures var a := SkipSpaces(s, 0);
      var b := SkipSpacesBack(s, a, |s|);
      && Trim(s) == s[a..b]
      && (forall k :: 0 <= k < a ==> IsJsSpace(s[k]))
      && (forall k :: b <= k < |s| ==> IsJsSpace(s[k]))
      && (a == b || (!IsJsSpace(s[a]) && !IsJsSpace(s[b - 1])))
  {
  }

  /** Trimming twice is trimming once. */
  lemma TrimIdempotent(s: string)
    ensures Trim(Trim(s)) == Trim(s)
  {
  }

  // ---------------------------------------------------------------------------
  // The clip ledger and its display order
  // ---------------------------------------------------------------------------

  function Reverse<T>(s: seq<T>): (r: seq<T>)
    ensures |r| == |s|
    ensures forall i :: 0 <= i < |s| ==> r[i] == s[|s| - 1 - i]
  {
    if s == [] then [] else Reverse(s[1..]) + [s[0]]
  }

  /**
   * The order `renderClips` shows the ledger in: `list.slice().reverse()`,
   * newest first. None when the ledger is not an array, or when it holds a
   * null, whose `ts` the card template cannot read.
   */
  function DisplayOrder(items: map<string, string>): (r: Option<seq<Json>>)
    ensures r.Some? <==> Ledger(items).Some? && Null !in Ledger(items).value
    ensures r.Some? ==> |r.value| == |Ledger(items).value|
    ensures r.Some? ==> forall i :: 0 <= i < |r.value| ==>
      r.value[i] == Ledger(items).value[|r.value| - 1 - i]
  {
    match Ledger(items)
    case Some(xs) => if Null in xs then None else Some(Reverse(xs))
    case None => None
  }

  /** Saving a clip makes it the first one displayed, followed by the earlier display in the same order. */
  lemma SavedClipShownFirst(items: map<string, string>, xs: seq<Json>, c: Clip)
    requires Ledger(items) == Some(xs)
    ensures DisplayOrder(items[ClipsKey := Encode(Arr(xs + [ClipJson(c)]))]) ==
      if Null in xs then None else Some([ClipJson(c)] + Reverse(xs))
  {
    var after := items[ClipsKey := Encode(Arr(xs + [ClipJson(c)]))];
    SaveClipGrowsLedger(items, xs, c);
    assert Reverse(xs + [ClipJson(c)]) == [ClipJson(c)] + Reverse(xs);
  }

  /** The ledger after the save handler's write: the old entries, in order, and then the new one. */
  lemma SaveClipGrowsLedger(items: map<string, string>, xs: seq<Json>, c: Clip)
    requires Ledger(items) == Some(xs)
    ensures Ledger(items[ClipsKey := Encode(Arr(xs + [ClipJson(c)]))]) == Some(xs + [ClipJson(c)])
  {
    var ys := xs + [ClipJson(c)];
    assert forall i :: 0 <= i < |ys| ==> WellFormed(ys[i]) by {
      forall i | 0 <= i < |ys| ensures WellFormed(ys[i]) {
        if i < |xs| { assert ys[i] == xs[i]; }
      }
    }
    Db.SetThenGet(items, ClipsKey, Arr(ys), Arr([]));
  }

  // ---------------------------------------------------------------------------
  // The carrot meter
  // ---------------------------------------------------------------------------

  /**
   * The meter fill width, `Math.min(100, carrots % 100)` percent, where `%`
   * is JavaScript's remainder, which takes the sign of the dividend.
   */
  function Percent(carrots: int): (p: int)
    ensures carrots >= 0 ==> 0 <= p <= 99 && p == carrots % 100
    ensures carrots < 0 ==> -99 <= p <= 0
    ensures (carrots - p) % 100 == 0
  {
    var rem := if carrots >= 0 then carrots % 100 else -((-carrots) % 100);
    if rem < 100 then rem else 100
  }

  /**
   * From a non-negative count, adding `k` carrots (1 or 5 from the buttons)
   * advances the meter by `k` modulo 100: the bar wraps to empty at every
   * hundredth carrot.
   */
  lemma MeterAdvance(carrots: int, k: int)
    requires carrots >= 0 && 0 <= k < 100
    ensures Percent(carrots + k) == (Percent(carrots) + k) % 100
  {
  }

  // ---------------------------------------------------------------------------
  // The weekly digest
  // ---------------------------------------------------------------------------

  datatype Totals = Totals(carrots: int, resets: int, clips: nat)

  /** A digest without its `generatedAt` time stamp. */
  datatype Digest = Digest(totals: Totals, entries: seq<Json>)

  /**
   * The number `>=` compares for a `ts` property: numbers as they are, null as
   * 0, booleans as 0 and 1. Strings, arrays and objects are read as NaN, which
   * no comparison accepts.
   */
  function TsNumber(t: Json): (r: Option<int>)
    ensures r.None? <==> t.Str? || t.Arr? || t.Obj?
    ensures t.Num? ==> r == Some(t.n)
    ensures t.Null? ==> r == Some(0)
    ensures t.Bool? ==> r == Some(if t.b then 1 else 0)
  {
    match t
    case Num(n) => Some(n)
    case Null => Some(0)
    case Bool(b) => Some(if b then 1 else 0)
    case _ => None
  }

  /** The filter test `c.ts >= cutoff`. None when `c` is null: reading a property of null throws. */
  function InWindow(c: Json, cutoff: int): (r: Option<bool>)
    ensures r.None? <==> c.Null?
    ensures r == Some(true) ==> c.Obj? && Lookup(c.members, "ts").Some?
    ensures r == Some(true) ==>
      (TsNumber(Lookup(c.members, "ts").value).Some? && TsNumber(Lookup(c.members, "ts").value).value >= cutoff)
    ensures (c.Obj? && Lookup(c.members, "ts").Some? && TsNumber(Lookup(c.members, "ts").value).Some?
             && TsNumber(Lookup(c.members, "ts").value).value >= cutoff) ==> r == Some(true)
  {
    match c
    case Null => None
    case Obj(ms) =>
      Some(match Lookup(ms, "ts")
           case None => false
           case Some(t) => TsNumber(t).Some? && TsNumber(t).value >= cutoff)
    case _ => Some(false)
  }

  /** `clips.filter(c => c.ts >= cutoff)`: the clips in the window, in stored order. */
  function WindowEntries(clips: seq<Json>, cutoff: int): (r: Option<seq<Json>>)
    ensures r.Some? <==> Null !in clips
    ensures r.Some? ==> |r.value| <= |clips|
    ensures r.Some? ==> forall x :: x in r.value ==> x in clips && InWindow(x, cutoff) == Some(true)
    ensures r.Some? ==> forall x :: x in clips && InWindow(x, cutoff) == Some(true) ==> x in r.value
  {
    if clips == [] then Some([])
    else
      match InWindow(clips[0], cutoff)
      case None => None
      case Some(keep) =>
        match WindowEntries(clips[1..], cutoff)
        case None => None
        case Some(rest) => Some(if keep then [clips[0]] + rest else rest)
  }

  /** A saved clip is in the window exactly when its time stamp is at least the cutoff. */
  lemma ClipInWindow(c: Clip, cutoff: int)
    ensures InWindow(ClipJson(c), cutoff) == Some(c.ts >= cutoff)
  {
  }

  /** One step of the filter: the verdict on the first clip, then the rest. */
  lemma WindowEntriesCons(x: Json, xs: seq<Json>, cutoff: int)
    ensures WindowEntries([x] + xs, cutoff) ==
      if InWindow(x, cutoff).None? || WindowEntries(xs, cutoff).None? then None
      else Some((if InWindow(x, cutoff).value then [x] else []) + WindowEntries(xs, cutoff).value)
  {
    var ys := [x] + xs;
    assert ys != [] && ys[0] == x && ys[1..] == xs;
    assert WindowEntries(ys, cutoff) ==
      match InWindow(x, cutoff)
      case None => None
      case Some(keep) =>
        match WindowEntries(xs, cutoff)
        case None => None
        case Some(rest) => Some(if keep then [x] + rest else rest);
    if InWindow(x, cutoff).Some? && WindowEntries(xs, cutoff).Some? {
      var rest := WindowEntries(xs, cutoff).value;
      assert (if InWindow(x, cutoff).value then [x] + rest else rest)
        == (if InWindow(x, cutoff).value then [x] else []) + rest;
    }
  }

  /** The filter distributes over concatenation, so it keeps the stored order. */
  lemma {:induction false} WindowEntriesAppend(a: seq<Json>, b: seq<Json>, cutoff: int)
    requires Null !in a && Null !in b
    ensures Null !in a + b
    ensures WindowEntries(a + b, cutoff).value == WindowEntries(a, cutoff).value + WindowEntries(b, cutoff).value
  {
    if a == [] {
      assert a + b == b;
    } else {
      var ab := a + b;
      assert ab[0] == a[0] && ab[1..] == a[1..] + b;
      WindowEntriesAppend(a[1..], b, cutoff);
    }
  }

  /**
   * `computeDigest()`, with the ledger value, the two counters and the cutoff
   * time as inputs. None when the ledger is not an array or holds a null.
   */
  function ComputeDigest(clips: Json, carrots: int, resets: int, cutoff: int): (r: Option<Digest>)
    ensures r.Some? <==> clips.Arr? && Null !in clips.items
    ensures r.Some? ==> r.value.totals == Totals(carrots, resets, |r.value.entries|)
    ensures r.Some? ==> Some(r.value.entries) == WindowEntries(clips.items, cutoff)
  {
    match clips
    case Arr(xs) =>
      (match WindowEntries(xs, cutoff)
       case Some(es) => Some(Digest(Totals(carrots, resets, |es|), es))
       case None => None)
    case _ => None
  }

  /**
   * A clip saved with a time stamp inside the window joins the end of the
   * next digest's entries and raises its clip count by one; one saved before
   * the cutoff leaves the digest as it was.
   */
  lemma DigestAfterSave(items: map<string, string>, xs: seq<Json>, c: Clip, carrots: int, resets: int, cutoff: int)
    requires Ledger(items) == Some(xs) && Null !in xs
    ensures
      var before := ComputeDigest(Arr(xs), carrots, resets, cutoff);
      var after := ComputeDigest(Db.Get(items[ClipsKey := Encode(Arr(xs + [ClipJson(c)]))], ClipsKey, Arr([])), carrots, resets, cutoff);
      before.Some? && after.Some?
      && after.value.entries == before.value.entries + (if c.ts >= cutoff then [ClipJson(c)] else [])
      && after.value.totals.clips == before.value.totals.clips + (if c.ts >= cutoff then 1 else 0)
  {
    SaveClipGrowsLedger(items, xs, c);
    var entry := ClipJson(c);
    assert Db.Get(items[ClipsKey := Encode(Arr(xs + [entry]))], ClipsKey, Arr([])) == Arr(xs + [entry]);
    ClipInWindow(c, cutoff);
    assert [entry] == [entry] + [];
    WindowEntriesCons(entry, [], cutoff);
    assert WindowEntries([entry], cutoff) == Some(if c.ts >= cutoff then [entry] else []);
    WindowEntriesAppend(xs, [entry], cutoff);
  }

  /** The stored form of a list of clips. */
  function ClipsJson(cs: seq<Clip>): (r: seq<Json>)
    ensures |r| == |cs|
  {
    if cs == [] then [] else [ClipJson(cs[0])] + ClipsJson(cs[1..])
  }

  /** The clips whose time stamp is at least `cutoff`, in order. */
  function Recent(cs: seq<Clip>, cutoff: int): (r: seq<Clip>)
    ensures forall c :: c in r <==> c in cs && c.ts >= cutoff
  {
    if cs == [] then []
    else if cs[0].ts >= cutoff then [cs[0]] + Recent(cs[1..], cutoff)
    else Recent(cs[1..], cutoff)
  }

  /**
   * For a ledger written by the console, the window holds exactly the saved
   * clips whose time stamp is at least the cutoff, in the order they were saved.
   */
  lemma {:induction false} SavedLedgerWindow(cs: seq<Clip>, cutoff: int)
    ensures Null !in ClipsJson(cs)
    ensures WindowEntries(ClipsJson(cs), cutoff) == Some(ClipsJson(Recent(cs, cutoff)))
  {
    if cs != [] {
      var head := ClipJson(cs[0]);
      SavedLedgerWindow(cs[1..], cutoff);
      ClipInWindow(cs[0], cutoff);
      WindowEntriesCons(head, ClipsJson(cs[1..]), cutoff);
      if cs[0].ts >= cutoff {
        assert ClipsJson(Recent(cs, cutoff)) == [head] + ClipsJson(Recent(cs[1..], cutoff)) by {
          var rs := [cs[0]] + Recent(cs[1..], cutoff);
          assert rs[0] == cs[0] && rs[1..] == Recent(cs[1..], cutoff);
        }
      }
    }
  }

  // ---------------------------------------------------------------------------
  // The HTML export's note cells
  // ---------------------------------------------------------------------------

  /** `note.replace(/</g, '&lt;')`: every character is kept or replaced by a longer text. */
  function EscapeLt(s: string): (r: string)
    ensures |r| >= |s|
  {
    if s == [] then []
    else (if s[0] == '<' then "&lt;" else [s[0]]) + EscapeLt(s[1..])
  }

  /** The escaped text holds no `<`, and text without `<` is left as it is. */
  lemma {:induction false} EscapeLtSafe(s: string)
    ensures '<' !in EscapeLt(s)
    ensures '<' !in s ==> EscapeLt(s) == s
  {
    if s != [] {
      EscapeLtSafe(s[1..]);
      assert s == [s[0]] + s[1..];
    }
  }

  /** Escaping works character by character: it distributes over concatenation. */
  lemma {:induction false} EscapeLtAppend(a: string, b: string)
    ensures EscapeLt(a + b) == EscapeLt(a) + EscapeLt(b)
  {
    if a == [] {
      assert a + b == b;
    } else {
      var t := a[1..];
      assert a == [a[0]] + t;
      assert a + b == [a[0]] + (t + b);
      EscapeLtCons(a[0], t + b);
      EscapeLtCons(a[0], t);
      EscapeLtAppend(t, b);
      var h := EscapeLt([a[0]]);
      assert h + (EscapeLt(t) + EscapeLt(b)) == (h + EscapeLt(t)) + EscapeLt(b);
    }
  }

  /** A single character: `<` becomes `&lt;` and every other character is kept. */
  lemma EscapeLtChar(c: char)
    ensures EscapeLt([c]) == if c == '<' then "&lt;" else [c]
  {
    assert [c][0] == c && [c][1..] == [];
  }

  /** Escaping a string with `c` in front: the escape of `c`, then the rest. */
  lemma EscapeLtCons(c: char, s: string)
    ensures EscapeLt([c] + s) == EscapeLt([c]) + EscapeLt(s)
  {
    assert ([c] + s)[0] == c && ([c] + s)[1..] == s && [c][1..] == [];
  }

  /** Each `<` becomes the four characters `&lt;`; every other character is kept. */
  lemma {:induction false} EscapeLtLength(s: string)
    ensures |EscapeLt(s)| == |s| + 3 * multiset(s)['<']
  {
    if s != [] {
      assert s == [s[0]] + s[1..];
      assert multiset(s)['<'] == multiset([s[0]])['<'] + multiset(s[1..])['<'];
      EscapeLtLength(s[1..]);
    }
  }

  /**
   * The note cell of one digest entry: `(e.note || '').replace(/</g, '&lt;')`.
   * A missing or falsy note gives the empty cell; a note that is neither a
   * string nor falsy has no `replace` and the export throws (None).
   */
  function NoteCell(e: Json): (r: Option<string>)
    ensures r.Some? ==> '<' !in r.value
    ensures e.Obj? && Lookup(e.members, "note").Some? && Lookup(e.members, "note").value.Str? ==>
      r == Some(EscapeLt(Lookup(e.members, "note").value.s))
    ensures e.Obj? && Lookup(e.members, "note").None? ==> r == Some("")
  {
    if e.Null? then None
    else
      var note := if e.Obj? then Lookup(e.members, "note") else None;
      match note
      case None => Some("")
      case Some(Null) => Some("")
      case Some(Bool(b)) => if b then None else Some("")
      case Some(Num(n)) => if n == 0 then Some("") else None
      case Some(Str(s)) => EscapeLtSafe(s); Some(EscapeLt(s))
      case Some(_) => None
  }

  /** The note cells of the exported table, one per digest entry, in order. */
  function NoteCells(entries: seq<Json>): (r: Option<seq<string>>)
    ensures r.Some? <==> forall i :: 0 <= i < |entries| ==> NoteCell(entries[i]).Some?
    ensures r.Some? ==> |r.value| == |entries|
    ensures r.Some? ==> forall i :: 0 <= i < |entries| ==> r.value[i] == NoteCell(entries[i]).value
  {
    if entries == [] then Some([])
    else
      match NoteCell(entries[0])
      case None => None
      case Some(cell) =>
        match NoteCells(entries[1..])
        case None => None
        case Some(cells) => Some([cell] + cells)
  }

  /** No exported note cell contains a `<`. */
  lemma NoteCellsHaveNoLt(entries: seq<Json>)
    requires NoteCells(entries).Some?
    ensures forall i :: 0 <= i < |entries| ==> '<' !in NoteCells(entries).value[i]
  {
  }

  /** A clip saved by the console exports its note escaped, so the export never fails on it. */
  lemma SavedClipNoteCell(c: Clip)
    ensures NoteCell(ClipJson(c)) == Some(EscapeLt(c.note))
  {
  }

  // ---------------------------------------------------------------------------
  // The page's state: the shared storage and the two counters
  // ---------------------------------------------------------------------------

  /** A counter as read from the store: its number, or 0 for any other value. */
  function Counter(j: Json): (r: int)
    ensures j.Num? ==> r == j.n
    ensures !j.Num? ==> r == 0
  {
    if j.Num? then j.n else 0
  }

  class ConsolePage {
    const storage: Db.LocalStorage
    var carrots: int
    var resets: int

    /** The counters in memory are what a fresh page load would read from the store. */
    ghost predicate Valid()
      reads this, storage
      ensures Valid() && CarrotsKey !in storage.items ==> carrots == 0
      ensures Valid() && ResetsKey !in storage.items ==> resets == 0
    {
      && carrots == Counter(Db.Get(storage.items, CarrotsKey, Num(0)))
      && resets == Counter(Db.Get(storage.items, ResetsKey, Num(0)))
    }

    /**
     * `computeDigest()` on this page: the stored ledger with the counters in
     * memory, `cutoff` being the time seven days ago.
     */
    function WeeklyDigest(cutoff: int): (r: Option<Digest>)
      reads this, storage
      ensures r.Some? <==> Ledger(storage.items).Some? && Null !in Ledger(storage.items).value
      ensures r.Some? ==> r.value.totals == Totals(carrots, resets, |r.value.entries|)
      ensures r.Some? ==> Some(r.value.entries) == WindowEntries(Ledger(storage.items).value, cutoff)
    {
      ComputeDigest(Db.Get(storage.items, ClipsKey, Arr([])), carrots, resets, cutoff)
    }

    /** Page load: `carrots` and `resets` start as the stored values, 0 when absent. */
    constructor (storage: Db.LocalStorage)
      ensures this.storage == storage && Valid()
      ensures CarrotsKey !in storage.items ==> carrots == 0
      ensures ResetsKey !in storage.items ==> resets == 0
    {
      this.storage := storage;
      carrots := Counter(Db.Get(storage.items, CarrotsKey, Num(0)));
      resets := Counter(Db.Get(storage.items, ResetsKey, Num(0)));
      if CarrotsKey !in storage.items {
        Db.GetMissing(storage.items, CarrotsKey, Num(0));
      }
      if ResetsKey !in storage.items {
        Db.GetMissing(storage.items, ResetsKey, Num(0));
      }
    }

    /**
     * `saveClip`: appends the entry with the trimmed note and the chosen tag
     * to the stored ledger. When the stored value is not an array, `push`
     * throws and nothing is written (`saved` is false).
     */
    method SaveClip(ts: int, tag: string, noteInput: string, audio: string) returns (saved: bool)
      requires Valid()
      modifies storage
      ensures Valid()
      ensures saved <==> old(Ledger(storage.items)).Some?
      ensures saved ==>
        var entry := ClipJson(Clip(ts, tag, Trim(noteInput), audio));
        && storage.items == old(storage.items)[ClipsKey := Encode(Arr(old(Ledger(storage.items)).value + [entry]))]
        && Ledger(storage.items) == Some(old(Ledger(storage.items)).value + [entry])
      ensures !saved ==> storage.items == old(storage.items)
    {
      var list := Db.Get(storage.items, ClipsKey, Arr([]));
      if !list.Arr? {
        return false;
      }
      var c := Clip(ts, tag, Trim(noteInput), audio);
      var updated := Arr(list.items + [ClipJson(c)]);
      ghost var after := storage.items[ClipsKey := Encode(updated)];
      assert Ledger(after) == Some(list.items + [ClipJson(c)])
        && Db.Get(after, CarrotsKey, Num(0)) == Db.Get(storage.items, CarrotsKey, Num(0))
        && Db.Get(after, ResetsKey, Num(0)) == Db.Get(storage.items, ResetsKey, Num(0)) by {
        assert Ledger(storage.items) == Some(list.items);
        SaveClipGrowsLedger(storage.items, list.items, c);
        Db.SetOtherKey(storage.items, ClipsKey, updated, CarrotsKey, Num(0));
        Db.SetOtherKey(storage.items, ClipsKey, updated, ResetsKey, Num(0));
      }
      Db.Set(storage, ClipsKey, updated);
      saved := true;
    }

    /** The "+1" button: one more carrot, persisted; resets are untouched. */
    method AddOne()
      requires Valid()
      modifies this, storage
      ensures Valid()
      ensures carrots == old(carrots) + 1 && resets == old(resets)
      ensures storage.items == old(storage.items)[CarrotsKey := Encode(Num(carrots))]
    {
      carrots := carrots + 1;
      Db.Set(storage, CarrotsKey, Num(carrots));
    }

    /** The "+5" button: five more carrots, persisted; resets are untouched. */
    method AddFive()
      requires Valid()
      modifies this, storage
      ensures Valid()
      ensures carrots == old(carrots) + 5 && resets == old(resets)
      ensures storage.items == old(storage.items)[CarrotsKey := Encode(Num(carrots))]
    {
      carrots := carrots + 5;
      Db.Set(storage, CarrotsKey, Num(carrots));
    }

    /**
     * The reset-token button: one more reset, persisted. The carrot count and
     * its stored value stay as they are; the cool-down only animates the bar.
     */
    method ResetToken()
      requires Valid()
      modifies this, storage
      ensures Valid()
      ensures resets == old(resets) + 1 && carrots == old(carrots)
      ensures storage.items == old(storage.items)[ResetsKey := Encode(Num(resets))]
    {
      resets := resets + 1;
      Db.Set(storage, ResetsKey, Num(resets));
    }

    /**
     * The clear-all button: once confirmed, removes the ledger and both
     * counters from the store and zeroes the counters; other keys stay.
     */
    method ClearAll(confirmed: bool)
      requires Valid()
      modifies this, storage
      ensures Valid()
      ensures confirmed ==> storage.items == old(storage.items) - {ClipsKey, CarrotsKey, ResetsKey}
      ensures confirmed ==> carrots == 0 && resets == 0
      ensures !confirmed ==> storage.items == old(storage.items) && carrots == old(carrots) && resets == old(resets)
    {
      if confirmed {
        storage.RemoveItem(ClipsKey);
        storage.RemoveItem(CarrotsKey);
        storage.RemoveItem(ResetsKey);
        carrots, resets := 0, 0;
        Db.GetMissing(storage.items, CarrotsKey, Num(0));
        Db.GetMissing(storage.items, ResetsKey, Num(0));
      }
    }
  }

  /** After clear-all, a later page load reads both counters as 0 and the ledger as empty. */
  lemma ClearedStoreLoadsEmpty(items: map<string, string>)
    ensures
      var cleared := items - {ClipsKey, CarrotsKey, ResetsKey};
      Counter(Db.Get(cleared, CarrotsKey, Num(0))) == 0
      && Counter(Db.Get(cleared, ResetsKey, Num(0))) == 0
      && Ledger(cleared) == Some([])
  {
    var cleared := items - {ClipsKey, CarrotsKey, ResetsKey};
    Db.GetMissing(cleared, CarrotsKey, Num(0));
    Db.GetMissing(cleared, ResetsKey, Num(0));
  }
}
