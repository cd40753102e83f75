/** The audiobook catalog: source trees laid out, duplicates and stray copies dropped, every file accounted for. */
module Catalogs {
  import opened Basics

  /** A catalog entry, its relative path split at the last slash. */
  datatype Entry = Entry(folder: string, name: string, size: Option<nat>, id: nat)

  datatype Reason = Junk | Duplicate | Extensionless

  datatype Dropped = Dropped(entry: Entry, reason: Reason)

  /** Folding of names: case and runs of blanks. */
  type Fold = string -> string

  predicate HasDot(name: string) { '.' in name }

  /** The name without its last extension. */
  function Stem(name: string): (s: string)
    ensures HasDot(name) ==> |s| < |name| && s == name[..|s|] && name[|s|] == '.' && '.' !in name[|s| + 1..]
    ensures !HasDot(name) ==> s == name
  {
    StemFrom(name, |name|)
  }

  function StemFrom(name: string, n: nat): (s: string)
    requires n <= |name| && '.' !in name[n..]
    ensures HasDot(name) ==> |s| < |name| && s == name[..|s|] && name[|s|] == '.' && '.' !in name[|s| + 1..]
    ensures !HasDot(name) ==> s == name
  {
    if n == 0 then assert name[0..] == name; name
    else if name[n - 1] == '.' then name[..n - 1]
    else
      assert name[n - 1..] == [name[n - 1]] + name[n..];
      StemFrom(name, n - 1)
  }

  datatype Key = Key(name: string, size: Option<nat>)

  function KeyOf(fold: Fold, e: Entry): Key { Key(fold(e.name), e.size) }

  /** Where a name stands, extension aside. */
  datatype Place = Place(stem: string, folder: string)

  function PlaceOf(fold: Fold, e: Entry): Place { Place(fold(Stem(e.name)), e.folder) }

  // ---- _dedupe ----

  function EntriesOf(dropped: seq<Dropped>): seq<Entry> {
    if dropped == [] then [] else EntriesOf(dropped[..|dropped| - 1]) + [dropped[|dropped| - 1].entry]
  }

  lemma {:induction false} EntriesSnoc(dropped: seq<Dropped>, d: Dropped)
    ensures EntriesOf(dropped + [d]) == EntriesOf(dropped) + [d.entry]
  {
    assert (dropped + [d])[..|dropped|] == dropped;
  }

  /** Nothing lost, nothing made up: every entry is kept or dropped, as often as it came. */
  ghost predicate Accounts(entries: seq<Entry>, kept: seq<Entry>, dropped: seq<Dropped>) {
    multiset(entries) == multiset(kept) + multiset(EntriesOf(dropped))
  }

  ghost predicate DistinctKeys(fold: Fold, kept: seq<Entry>) {
    forall i, k :: 0 <= i < k < |kept| ==> KeyOf(fold, kept[i]) != KeyOf(fold, kept[k])
  }

  function KeysOf(fold: Fold, kept: seq<Entry>): set<Key> {
    set e | e in kept :: KeyOf(fold, e)
  }

  lemma {:induction false} KeysSnoc(fold: Fold, kept: seq<Entry>, x: Entry)
    ensures KeysOf(fold, kept + [x]) == KeysOf(fold, kept) + {KeyOf(fold, x)}
    ensures DistinctKeys(fold, kept) && KeyOf(fold, x) !in KeysOf(fold, kept) ==> DistinctKeys(fold, kept + [x])
  {
    forall k | 0 <= k < |kept| ensures KeyOf(fold, kept[k]) in KeysOf(fold, kept) { assert kept[k] in kept; }
  }

  lemma {:induction false} AccountKept(entries: seq<Entry>, kept: seq<Entry>, dropped: seq<Dropped>, e: Entry)
    requires Accounts(entries, kept, dropped)
    ensures Accounts(entries + [e], kept + [e], dropped)
  {
  }

  lemma {:induction false} AccountDropped(entries: seq<Entry>, kept: seq<Entry>, dropped: seq<Dropped>, e: Entry,
                                          why: Reason)
    requires Accounts(entries, kept, dropped)
    ensures Accounts(entries + [e], kept, dropped + [Dropped(e, why)])
  {
    EntriesSnoc(dropped, Dropped(e, why));
  }

  /** The first entry of each name and size, in order. */
  function Firsts(fold: Fold, entries: seq<Entry>): seq<Entry> {
    if entries == [] then []
    else
      var n := |entries| - 1;
      Firsts(fold, entries[..n]) +
      if KeyOf(fold, entries[n]) in KeysOf(fold, entries[..n]) then [] else [entries[n]]
  }

  lemma {:induction false} FirstsHaveAllKeys(fold: Fold, entries: seq<Entry>)
    ensures KeysOf(fold, Firsts(fold, entries)) == KeysOf(fold, entries)
  {
    if entries != [] {
      var n := |entries| - 1;
      FirstsHaveAllKeys(fold, entries[..n]);
      assert entries == entries[..n] + [entries[n]];
      KeysSnoc(fold, entries[..n], entries[n]);
      KeysSnoc(fold, Firsts(fold, entries[..n]), entries[n]);
    }
  }

  lemma {:induction false} FirstsNext(fold: Fold, entries: seq<Entry>, i: nat)
    requires i < |entries|
    ensures Firsts(fold, entries[..i + 1]) == Firsts(fold, entries[..i]) +
      if KeyOf(fold, entries[i]) in KeysOf(fold, Firsts(fold, entries[..i])) then [] else [entries[i]]
  {
    assert entries[..i + 1][..i] == entries[..i];
    FirstsHaveAllKeys(fold, entries[..i]);
  }

  lemma {:induction false} FirstsDistinct(fold: Fold, entries: seq<Entry>)
    ensures DistinctKeys(fold, Firsts(fold, entries))
  {
    if entries != [] {
      var n := |entries| - 1;
      FirstsDistinct(fold, entries[..n]);
      FirstsHaveAllKeys(fold, entries[..n]);
      KeysSnoc(fold, Firsts(fold, entries[..n]), entries[n]);
    }
  }

  ghost predicate AllTwins(fold: Fold, keys: set<Key>, dropped: seq<Dropped>) {
    forall d :: d in dropped ==> d.reason == Duplicate && KeyOf(fold, d.entry) in keys
  }

  /** `_dedupe`: the first entry of each name and size is kept. */
  method Dedupe(fold: Fold, entries: seq<Entry>) returns (kept: seq<Entry>, dropped: seq<Dropped>)
    ensures kept == Firsts(fold, entries)
    ensures Accounts(entries, kept, dropped) && DistinctKeys(fold, kept)
    ensures AllTwins(fold, KeysOf(fold, kept), dropped)
  {
    ghost var accounts := (es: seq<Entry>, ks: seq<Entry>, ds: seq<Dropped>) => Accounts(es, ks, ds);
    ghost var firsts := (n: nat) => if n <= |entries| then Firsts(fold, entries[..n]) else [];
    var seen: set<Key> := {};
    kept, dropped := [], [];
    for i := 0 to |entries|
      invariant seen == KeysOf(fold, kept) && kept == firsts(i) && AllTwins(fold, seen, dropped)
      invariant accounts(entries[..i], kept, dropped)
    {
      var e := entries[i];
      assert entries[..i + 1] == entries[..i] + [e];
      FirstsNext(fold, entries, i);
      var key := KeyOf(fold, e);
      if key in seen {
        AccountDropped(entries[..i], kept, dropped, e, Duplicate);
        dropped := dropped + [Dropped(e, Duplicate)];
      } else {
        AccountKept(entries[..i], kept, dropped, e);
        KeysSnoc(fold, kept, e);
        seen := seen + {key};
        kept := kept + [e];
      }
    }
    assert entries[..|entries|] == entries;
    FirstsDistinct(fold, entries);
  }

  // ---- _drop_extensionless ----

  /** The places taken by names that have an extension. */
  function WithExtension(fold: Fold, entries: seq<Entry>): set<Place> {
    set e | e in entries && HasDot(e.name) :: PlaceOf(fold, e)
  }

  /** An entry without an extension, beside the same name with one. */
  predicate Stray(fold: Fold, entries: seq<Entry>, e: Entry) {
    !HasDot(e.name) && Place(fold(e.name), e.folder) in WithExtension(fold, entries)
  }

  /** The entries that are to stay, in order. */
  function Sift(part: seq<Entry>, gone: Entry -> bool): seq<Entry> {
    if part == [] then []
    else
      var n := |part| - 1;
      Sift(part[..n], gone) + if gone(part[n]) then [] else [part[n]]
  }

  lemma {:induction false} SiftMembers(part: seq<Entry>, gone: Entry -> bool)
    ensures forall e :: e in Sift(part, gone) <==> e in part && !gone(e)
  {
    if part != [] {
      var n := |part| - 1;
      SiftMembers(part[..n], gone);
      assert part == part[..n] + [part[n]];
    }
  }

  lemma {:induction false} SiftDistinct(fold: Fold, part: seq<Entry>, gone: Entry -> bool)
    requires DistinctKeys(fold, part)
    ensures DistinctKeys(fold, Sift(part, gone))
  {
    if part != [] {
      var n := |part| - 1;
      SiftDistinct(fold, part[..n], gone);
      SiftMembers(part[..n], gone);
      NewKey(fold, part, n, Sift(part[..n], gone));
      KeysSnoc(fold, Sift(part[..n], gone), part[n]);
    }
  }

  lemma {:induction false} SiftNext(entries: seq<Entry>, gone: Entry -> bool, i: nat)
    requires i < |entries|
    ensures entries[..i + 1] == entries[..i] + [entries[i]]
    ensures Sift(entries[..i + 1], gone) == Sift(entries[..i], gone) + if gone(entries[i]) then [] else [entries[i]]
  {
    assert entries[..i + 1][..i] == entries[..i];
  }

  ghost predicate AllGone(entries: seq<Entry>, gone: Entry -> bool, dropped: seq<Dropped>) {
    forall d :: d in dropped ==> d.reason == Extensionless && d.entry in entries && gone(d.entry)
  }

  /** The loop of `_drop_extensionless`. */
  method Sieve(entries: seq<Entry>, gone: Entry -> bool) returns (kept: seq<Entry>, dropped: seq<Dropped>)
    ensures kept == Sift(entries, gone) && Accounts(entries, kept, dropped) && AllGone(entries, gone, dropped)
  {
    ghost var accounts := (n: nat, ks: seq<Entry>, ds: seq<Dropped>) => n <= |entries| &&
      Accounts(entries[..n], ks, ds);
    ghost var sift := (n: nat) => if n <= |entries| then Sift(entries[..n], gone) else [];
    kept, dropped := [], [];
    for i := 0 to |entries|
      invariant accounts(i, kept, dropped) && kept == sift(i)
      invariant AllGone(entries, gone, dropped)
    {
      var e := entries[i];
      SiftNext(entries, gone, i);
      if gone(e) {
        AccountDropped(entries[..i], kept, dropped, e, Extensionless);
        dropped := dropped + [Dropped(e, Extensionless)];
      } else {
        AccountKept(entries[..i], kept, dropped, e);
        kept := kept + [e];
      }
    }
    assert entries[..|entries|] == entries;
  }

  ghost predicate AllStrays(fold: Fold, entries: seq<Entry>, dropped: seq<Dropped>) {
    forall d :: d in dropped ==> d.reason == Extensionless && d.entry in entries && Stray(fold, entries, d.entry)
  }

  /** `_drop_extensionless`: the strays dropped, the others kept in order. */
  method DropExtensionless(fold: Fold, entries: seq<Entry>) returns (kept: seq<Entry>, dropped: seq<Dropped>)
    ensures kept == Sift(entries, e => Stray(fold, entries, e)) && Accounts(entries, kept, dropped)
    ensures forall e :: e in kept <==> e in entries && !Stray(fold, entries, e)
    ensures AllStrays(fold, entries, dropped)
    ensures DistinctKeys(fold, entries) ==> DistinctKeys(fold, kept)
  {
    var gone := e => Stray(fold, entries, e);
    kept, dropped := Sieve(entries, gone);
    SiftMembers(entries, gone);
    if DistinctKeys(fold, entries) { SiftDistinct(fold, entries, gone); }
  }

  lemma {:induction false} NewKey(fold: Fold, entries: seq<Entry>, i: nat, kept: seq<Entry>)
    requires i < |entries| && DistinctKeys(fold, entries) && forall e :: e in kept ==> e in entries[..i]
    ensures KeyOf(fold, entries[i]) !in KeysOf(fold, kept)
  {
    forall e | e in kept ensures KeyOf(fold, e) != KeyOf(fold, entries[i]) {
      var k :| 0 <= k < i && entries[k] == e;
    }
  }

  // ---- layout ----

  /** A fetched link: its root folder, and its files under their cleaned names, without the target prefix. */
  datatype Link = Link(code: string, root: string, files: seq<Entry>)

  const ROOT_MAP: map<string, string> := map[
    "Tafseer" := "Quran/Tafseer",
    "Translations" := "Quran/Translations",
    "Recitations" := "Quran/Recitations",
    "Suplications" := "Quran/Supplications",
    "Seerah" := "Seerah",
    "Speeches" := "Speeches"]

  const ITEM_MAP: map<string, string> := map["Volume-4" := "Hamd & Naat/Mix Collection"]

  function Prefixed(prefix: string, e: Entry): Entry {
    e.(folder := if e.folder == "" then prefix else prefix + "/" + e.folder)
  }

  /** The files of the laid-out links, under their target folders, in the order they are added. */
  function Laid(links: seq<(string, Link)>): seq<Entry> {
    if links == [] then []
    else
      var n := |links| - 1;
      Laid(links[..n]) + PrefixedAll(links[n].0, links[n].1.files)
  }

  function PrefixedAll(prefix: string, files: seq<Entry>): seq<Entry> {
    seq(|files|, i requires 0 <= i < |files| => Prefixed(prefix, files[i]))
  }

  /** A file without a name, or with the name of a junk file. */
  function JunkTest(junk: string -> bool): Entry -> bool {
    (e: Entry) => e.name == "" || junk(e.name)
  }

  ghost predicate AllJunk(junk: string -> bool, dropped: seq<Dropped>) {
    forall d :: d in dropped ==> d.reason == Junk && JunkTest(junk)(d.entry)
  }

  lemma {:induction false} AddNext(before: seq<Entry>, laid: seq<Entry>, entries: seq<Entry>, gone: Entry -> bool,
                                   i: nat)
    requires i < |laid|
    ensures before + laid[..i + 1] == before + laid[..i] + [laid[i]]
    ensures entries + Sift(laid[..i + 1], gone) ==
      entries + Sift(laid[..i], gone) + if gone(laid[i]) then [] else [laid[i]]
  {
    SiftNext(laid, gone, i);
  }

  /** The body of the loop of `add`. */
  method AddOne(junk: string -> bool, e: Entry, entries: seq<Entry>, dropped: seq<Dropped>, ghost before: seq<Entry>)
    returns (more: seq<Entry>, out: seq<Dropped>)
    requires Accounts(before, entries, dropped) && AllJunk(junk, dropped)
    ensures Accounts(before + [e], more, out) && AllJunk(junk, out)
    ensures more == entries + if JunkTest(junk)(e) then [] else [e]
  {
    if e.name == "" || junk(e.name) {
      AccountDropped(before, entries, dropped, e, Junk);
      more, out := entries, dropped + [Dropped(e, Junk)];
    } else {
      AccountKept(before, entries, dropped, e);
      more, out := entries + [e], dropped;
    }
  }

  /** `add`: the junk names of one link dropped, the other files taken in, in order. */
  method Add(junk: string -> bool, prefix: string, files: seq<Entry>, entries: seq<Entry>, dropped: seq<Dropped>,
             ghost before: seq<Entry>)
    returns (more: seq<Entry>, out: seq<Dropped>)
    requires Accounts(before, entries, dropped) && AllJunk(junk, dropped)
    ensures Accounts(before + PrefixedAll(prefix, files), more, out) && AllJunk(junk, out)
    ensures more == entries + Sift(PrefixedAll(prefix, files), JunkTest(junk))
  {
    more, out := entries, dropped;
    ghost var laid := PrefixedAll(prefix, files);
    ghost var accounts := (n: nat, ks: seq<Entry>, ds: seq<Dropped>) => n <= |laid| &&
      Accounts(before + laid[..n], ks, ds);
    ghost var sift := (n: nat) => if n <= |laid| then entries + Sift(laid[..n], JunkTest(junk)) else [];
    assert before + laid[..0] == before;
    for i := 0 to |files|
      invariant accounts(i, more, out) && AllJunk(junk, out)
      invariant more == sift(i)
    {
      AddNext(before, laid, entries, JunkTest(junk), i);
      more, out := AddOne(junk, Prefixed(prefix, files[i]), more, out, before + laid[..i]);
    }
    TakeAll(laid);
  }

  predicate Covered(collections: seq<Link>, code: string) {
    exists i :: 0 <= i < |collections| && collections[i].code == code
  }

  /** An item-level link that no collection covers. */
  predicate Extra(collections: seq<Link>, l: Link) {
    !Covered(collections, l.code) && l.root in ITEM_MAP
  }

  function CollectionParts(collections: seq<Link>): seq<(string, Link)>
    requires forall l :: l in collections ==> l.root in ROOT_MAP
  {
    seq(|collections|, i requires 0 <= i < |collections| => (ROOT_MAP[collections[i].root], collections[i]))
  }

  function ExtraParts(collections: seq<Link>, fetched: seq<Link>): seq<(string, Link)> {
    if fetched == [] then []
    else
      var n := |fetched| - 1;
      ExtraParts(collections, fetched[..n]) +
      if Extra(collections, fetched[n]) then [(ITEM_MAP[fetched[n].root] + "/" + fetched[n].root, fetched[n])] else []
  }

  /** What `layout` lays out: every collection, then the links only an item page has. */
  function Parts(collections: seq<Link>, fetched: seq<Link>): seq<(string, Link)>
    requires forall l :: l in collections ==> l.root in ROOT_MAP
  {
    CollectionParts(collections) + ExtraParts(collections, fetched)
  }

  lemma {:induction false} LaidNext(parts: seq<(string, Link)>, i: nat)
    requires i < |parts|
    ensures Laid(parts[..i + 1]) == Laid(parts[..i]) + PrefixedAll(parts[i].0, parts[i].1.files)
  {
    assert parts[..i + 1][..i] == parts[..i];
  }

  lemma {:induction false} SiftConcat(a: seq<Entry>, b: seq<Entry>, gone: Entry -> bool)
    ensures Sift(a + b, gone) == Sift(a, gone) + Sift(b, gone)
  {
    if b == [] {
      assert a + b == a;
    } else {
      var n := |b| - 1;
      SiftConcat(a, b[..n], gone);
      assert (a + b)[..|a + b| - 1] == a + b[..n];
    }
  }

  method AddAll(junk: string -> bool, parts: seq<(string, Link)>) returns (entries: seq<Entry>, dropped: seq<Dropped>)
    ensures Accounts(Laid(parts), entries, dropped) && AllJunk(junk, dropped)
    ensures entries == Sift(Laid(parts), JunkTest(junk))
  {
    ghost var laid := (n: nat) => if n <= |parts| then Laid(parts[..n]) else [];
    ghost var accounts := (es: seq<Entry>, ks: seq<Entry>, ds: seq<Dropped>) => Accounts(es, ks, ds);
    ghost var sift := (es: seq<Entry>) => Sift(es, JunkTest(junk));
    entries, dropped := [], [];
    for i := 0 to |parts|
      invariant accounts(laid(i), entries, dropped) && AllJunk(junk, dropped)
      invariant entries == sift(laid(i))
    {
      LaidNext(parts, i);
      SiftConcat(laid(i), PrefixedAll(parts[i].0, parts[i].1.files), JunkTest(junk));
      entries, dropped := Add(junk, parts[i].0, parts[i].1.files, entries, dropped, laid(i));
    }
    assert parts[..|parts|] == parts;
  }

  lemma {:induction false} EntriesConcat(a: seq<Dropped>, b: seq<Dropped>)
    ensures EntriesOf(a + b) == EntriesOf(a) + EntriesOf(b)
  {
    if b == [] {
      assert a + b == a;
    } else {
      var n := |b| - 1;
      EntriesConcat(a, b[..n]);
      assert (a + b)[..|a + b| - 1] == a + b[..n];
    }
  }

  /** One pass after another: the second accounts for what the first kept. */
  lemma {:induction false} AccountsCompose(all: seq<Entry>, mid: seq<Entry>, kept: seq<Entry>, first: seq<Dropped>,
                                           second: seq<Dropped>)
    requires Accounts(all, mid, first) && Accounts(mid, kept, second)
    ensures Accounts(all, kept, first + second)
  {
    EntriesConcat(first, second);
  }

  lemma {:induction false} AccountsPermutes(entries: seq<Entry>, sorted: seq<Entry>, kept: seq<Entry>,
                                            dropped: seq<Dropped>)
    requires Accounts(sorted, kept, dropped) && multiset(entries) == multiset(sorted)
    ensures Accounts(entries, kept, dropped)
  {
  }

  /** An entry's stand-in for a stray copy has an extension, so the stray pass keeps it. */
  lemma {:induction false} StandInsStay(fold: Fold, entries: seq<Entry>, kept: seq<Entry>)
    requires forall e :: e in kept <==> e in entries && !Stray(fold, entries, e)
    ensures WithExtension(fold, kept) == WithExtension(fold, entries)
  {
  }

  /** Every dropped file is junk, or a kept file stands for it, directly or through one stray copy. */
  ghost predicate StandsFor(fold: Fold, junk: string -> bool, kept: seq<Entry>, dropped: seq<Dropped>, d: Dropped) {
    match d.reason
    case Junk => JunkTest(junk)(d.entry)
    case Extensionless =>
      !HasDot(d.entry.name) && Place(fold(d.entry.name), d.entry.folder) in WithExtension(fold, kept)
    case Duplicate =>
      || KeyOf(fold, d.entry) in KeysOf(fold, kept)
      || exists s :: s in dropped && s.reason == Extensionless && KeyOf(fold, s.entry) == KeyOf(fold, d.entry)
  }

  lemma {:induction false} DuplicateStands(fold: Fold, junk: string -> bool, mid: seq<Entry>, kept: seq<Entry>,
                                           strays: seq<Dropped>, dropped: seq<Dropped>, d: Dropped)
    requires d.reason == Duplicate && KeyOf(fold, d.entry) in KeysOf(fold, mid)
    requires Accounts(mid, kept, strays) && forall s :: s in strays ==> s in dropped && s.reason == Extensionless
    ensures StandsFor(fold, junk, kept, dropped, d)
  {
    var e :| e in mid && KeyOf(fold, e) == KeyOf(fold, d.entry);
    assert e in multiset(mid);
    if e !in kept {
      assert e !in multiset(kept);
      assert e in multiset(EntriesOf(strays));
      var s := StrayOf(strays, e);
      assert s in dropped;
    }
  }

  lemma {:induction false} StrayOf(strays: seq<Dropped>, e: Entry) returns (s: Dropped)
    requires e in EntriesOf(strays)
    ensures s in strays && s.entry == e
  {
    var n := |strays| - 1;
    if strays[n].entry == e { s := strays[n]; } else { s := StrayOf(strays[..n], e); }
  }

  lemma {:induction false} FirstsSorted(fold: Fold, entries: seq<Entry>, le: (Entry, Entry) -> bool)
    requires Sorted(entries, le)
    ensures Sorted(Firsts(fold, entries), le) && forall e :: e in Firsts(fold, entries) ==> e in entries
  {
    if entries != [] {
      var n := |entries| - 1;
      FirstsSorted(fold, entries[..n], le);
      AppendSorted(Firsts(fold, entries[..n]), entries, le);
    }
  }

  lemma {:induction false} SiftSorted(part: seq<Entry>, gone: Entry -> bool, le: (Entry, Entry) -> bool)
    requires Sorted(part, le)
    ensures Sorted(Sift(part, gone), le) && forall e :: e in Sift(part, gone) ==> e in part
  {
    if part != [] {
      var n := |part| - 1;
      SiftSorted(part[..n], gone, le);
      AppendSorted(Sift(part[..n], gone), part, le);
    }
  }

  /** Both passes keep the path order. */
  lemma {:induction false} KeptSorted(fold: Fold, entries: seq<Entry>, gone: Entry -> bool, le: (Entry, Entry) -> bool)
    requires TotalOrder(le)
    ensures Sorted(Sift(Firsts(fold, SortBy(entries, le)), gone), le)
  {
    SortBySorts(entries, le);
    FirstsSorted(fold, SortBy(entries, le), le);
    SiftSorted(Firsts(fold, SortBy(entries, le)), gone, le);
  }

  /** Some of the earlier elements, in order, and then the last. */
  lemma {:induction false} AppendSorted(some: seq<Entry>, all: seq<Entry>, le: (Entry, Entry) -> bool)
    requires all != [] && Sorted(all, le) && Sorted(some, le) && forall e :: e in some ==> e in all[..|all| - 1]
    ensures Sorted(some + [all[|all| - 1]], le)
  {
    forall i | 0 <= i < |some| ensures le(some[i], all[|all| - 1]) {
      assert some[i] in some;
      var k :| 0 <= k < |all| - 1 && all[..|all| - 1][k] == some[i];
      assert le(all[k], all[|all| - 1]);
    }
  }

  /** What the two passes leave of entries in path order. */
  function Once(fold: Fold, sorted: seq<Entry>): seq<Entry> {
    var once := Firsts(fold, sorted);
    Sift(once, e => Stray(fold, once, e))
  }

  /** The sort and the two passes at the end of `layout`. */
  method Tidy(fold: Fold, byPath: (Entry, Entry) -> bool, entries: seq<Entry>)
    returns (kept: seq<Entry>, twins: seq<Dropped>, strays: seq<Dropped>, ghost once: seq<Entry>)
    ensures Accounts(entries, once, twins) && Accounts(once, kept, strays)
    ensures AllTwins(fold, KeysOf(fold, once), twins) && AllStrays(fold, once, strays)
    ensures WithExtension(fold, kept) == WithExtension(fold, once) && DistinctKeys(fold, kept)
    ensures forall e :: e in kept ==> !Stray(fold, once, e)
    ensures TotalOrder(byPath) ==> Sorted(kept, byPath)
    ensures kept == Once(fold, SortBy(entries, byPath))
  {
    var sorted := SortBy(entries, byPath);
    var first;
    first, twins := Dedupe(fold, sorted);
    once := first;
    AccountsPermutes(entries, sorted, once, twins);
    kept, strays := DropExtensionless(fold, first);
    StandInsStay(fold, once, kept);
    if TotalOrder(byPath) { KeptSorted(fold, entries, e => Stray(fold, once, e), byPath); }
  }

  lemma {:induction false} AllStand(fold: Fold, junk: string -> bool, once: seq<Entry>, kept: seq<Entry>,
                                    junked: seq<Dropped>, twins: seq<Dropped>, strays: seq<Dropped>)
    requires AllJunk(junk, junked) && AllTwins(fold, KeysOf(fold, once), twins) && AllStrays(fold, once, strays)
    requires Accounts(once, kept, strays) && WithExtension(fold, kept) == WithExtension(fold, once)
    ensures var dropped := junked + twins + strays;
      forall d :: d in dropped ==> StandsFor(fold, junk, kept, dropped, d)
  {
    var dropped := junked + twins + strays;
    forall d | d in dropped ensures StandsFor(fold, junk, kept, dropped, d) {
      if d in twins { DuplicateStands(fold, junk, once, kept, strays, dropped, d); }
    }
  }

  /** `layout`: None when a collection's root has no place in the library. */
  method Layout(fold: Fold, junk: string -> bool, byPath: (Entry, Entry) -> bool,
                collections: seq<Link>, fetched: seq<Link>)
    returns (result: Option<(seq<Entry>, seq<Dropped>)>)
    ensures result.None? <==> exists l :: l in collections && l.root !in ROOT_MAP
    ensures result.Some? ==>
      var (kept, dropped) := result.value;
      && kept == Once(fold, SortBy(Sift(Laid(Parts(collections, fetched)), JunkTest(junk)), byPath))
      && Accounts(Laid(Parts(collections, fetched)), kept, dropped)
      && DistinctKeys(fold, kept)
      && (TotalOrder(byPath) ==> Sorted(kept, byPath))
      && (forall e :: e in kept ==> HasDot(e.name) || Place(fold(e.name), e.folder) !in WithExtension(fold, kept))
      && (forall d :: d in dropped ==> StandsFor(fold, junk, kept, dropped, d))
  {
    for i := 0 to |collections|
      invariant forall k :: 0 <= k < i ==> collections[k].root in ROOT_MAP
    {
      if collections[i].root !in ROOT_MAP { return None; }
    }
    var parts := Parts(collections, fetched);
    var entries, junked := AddAll(junk, parts);
    var kept, twins, strays;
    ghost var once;
    kept, twins, strays, once := Tidy(fold, byPath, entries);
    AccountsCompose(Laid(parts), entries, once, junked, twins);
    AccountsCompose(Laid(parts), once, kept, junked + twins, strays);
    AllStand(fold, junk, once, kept, junked, twins, strays);
    result := Some((kept, junked + twins + strays));
  }

  /** A file with an extension and a key of its own is kept: so two sizes under one path both are. */
  lemma {:induction false} OwnKeyIsKept(fold: Fold, junk: string -> bool, entries: seq<Entry>, kept: seq<Entry>,
                                        dropped: seq<Dropped>, e: Entry)
    requires Accounts(entries, kept, dropped) && forall d :: d in dropped ==> StandsFor(fold, junk, kept, dropped, d)
    requires e in entries && HasDot(e.name) && e.name != "" && !junk(e.name)
    requires forall f :: f in entries && KeyOf(fold, f) == KeyOf(fold, e) ==> f == e
    ensures e in kept
  {
    assert e in multiset(entries);
    assert e in multiset(kept) || e in multiset(EntriesOf(dropped));
    NoStrayTwin(fold, junk, entries, kept, dropped, e);
    if e in EntriesOf(dropped) {
      var d := StrayOf(dropped, e);
      assert StandsFor(fold, junk, kept, dropped, d);
      var k :| k in kept && KeyOf(fold, k) == KeyOf(fold, e);
      assert k in multiset(kept);
      assert k in multiset(entries);
    }
  }

  /** No stray copy has the key of a file with an extension and a key of its own. */
  lemma {:induction false} NoStrayTwin(fold: Fold, junk: string -> bool, entries: seq<Entry>, kept: seq<Entry>,
                                       dropped: seq<Dropped>, e: Entry)
    requires Accounts(entries, kept, dropped) && forall d :: d in dropped ==> StandsFor(fold, junk, kept, dropped, d)
    requires HasDot(e.name) && forall f :: f in entries && KeyOf(fold, f) == KeyOf(fold, e) ==> f == e
    ensures forall s :: s in dropped && s.reason == Extensionless ==> KeyOf(fold, s.entry) != KeyOf(fold, e)
  {
    forall s | s in dropped && s.reason == Extensionless ensures KeyOf(fold, s.entry) != KeyOf(fold, e) {
      DroppedCame(entries, kept, dropped, s);
      assert StandsFor(fold, junk, kept, dropped, s);
    }
  }

  lemma {:induction false} DroppedCame(entries: seq<Entry>, kept: seq<Entry>, dropped: seq<Dropped>, s: Dropped)
    requires Accounts(entries, kept, dropped) && s in dropped
    ensures s.entry in entries
  {
    EntryOf(dropped, s);
    assert s.entry in multiset(EntriesOf(dropped));
    assert s.entry in multiset(entries);
  }

  lemma {:induction false} EntryOf(dropped: seq<Dropped>, s: Dropped)
    requires s in dropped
    ensures s.entry in EntriesOf(dropped)
  {
    var n := |dropped| - 1;
    if dropped[n] != s { EntryOf(dropped[..n], s); }
  }

  // ---- when two kept files share a path ----

  ghost predicate DistinctPaths(kept: seq<Entry>) {
    forall i, k :: 0 <= i < k < |kept| ==> !SamePath(kept[i], kept[k])
  }

  predicate SamePath(e: Entry, f: Entry) { e.folder == f.folder && e.name == f.name }

  /** The first entry of its name and size. */
  ghost predicate IsFirst(fold: Fold, entries: seq<Entry>, i: nat) {
    i < |entries| && KeyOf(fold, entries[i]) !in KeysOf(fold, entries[..i])
  }

  lemma {:induction false} FirstBefore(fold: Fold, entries: seq<Entry>, n: nat, i: nat)
    requires i < n <= |entries|
    ensures IsFirst(fold, entries[..n], i) <==> IsFirst(fold, entries, i)
    ensures entries[..n][i] == entries[i]
  {
    assert entries[..n][..i] == entries[..i];
  }

  /** The entries kept by the first pass are the firsts of their keys. */
  lemma {:induction false} KeptIsFirst(fold: Fold, entries: seq<Entry>, e: Entry) returns (i: nat)
    requires e in Firsts(fold, entries)
    ensures IsFirst(fold, entries, i) && entries[i] == e
  {
    var n := |entries| - 1;
    if e in Firsts(fold, entries[..n]) {
      i := KeptIsFirst(fold, entries[..n], e);
      FirstBefore(fold, entries, n, i);
    } else {
      i := n;
    }
  }

  lemma {:induction false} FirstIsKept(fold: Fold, entries: seq<Entry>, i: nat)
    requires IsFirst(fold, entries, i)
    ensures entries[i] in Firsts(fold, entries)
  {
    var n := |entries| - 1;
    if i < n {
      FirstBefore(fold, entries, n, i);
      FirstIsKept(fold, entries[..n], i);
    }
  }

  /** Two files of one path and different sizes, each the first of its name and size, and neither a stray copy. */
  ghost predicate Clashing(fold: Fold, entries: seq<Entry>, i: nat, k: nat) {
    && IsFirst(fold, entries, i) && IsFirst(fold, entries, k)
    && SamePath(entries[i], entries[k]) && entries[i].size != entries[k].size
    && !Stray(fold, Firsts(fold, entries), entries[i])
  }

  lemma {:induction false} OnceMembers(fold: Fold, entries: seq<Entry>, e: Entry)
    ensures e in Once(fold, entries) <==> e in Firsts(fold, entries) && !Stray(fold, Firsts(fold, entries), e)
    ensures DistinctKeys(fold, Once(fold, entries))
  {
    var once := Firsts(fold, entries);
    SiftMembers(once, e => Stray(fold, once, e));
    FirstsDistinct(fold, entries);
    SiftDistinct(fold, once, e => Stray(fold, once, e));
  }

  lemma {:induction false} ClashIsKept(fold: Fold, entries: seq<Entry>, i: nat, k: nat)
    requires Clashing(fold, entries, i, k)
    ensures !DistinctPaths(Once(fold, entries))
  {
    var kept := Once(fold, entries);
    FirstIsKept(fold, entries, i);
    FirstIsKept(fold, entries, k);
    OnceMembers(fold, entries, entries[i]);
    OnceMembers(fold, entries, entries[k]);
    assert Stray(fold, Firsts(fold, entries), entries[k]) <==> Stray(fold, Firsts(fold, entries), entries[i]);
    var a :| 0 <= a < |kept| && kept[a] == entries[i];
    var b :| 0 <= b < |kept| && kept[b] == entries[k];
    assert SamePath(kept[a], kept[b]) && SamePath(kept[b], kept[a]) && a != b;
  }

  lemma {:induction false} KeptClash(fold: Fold, entries: seq<Entry>, a: nat, b: nat) returns (i: nat, k: nat)
    requires a < b < |Once(fold, entries)| && SamePath(Once(fold, entries)[a], Once(fold, entries)[b])
    ensures Clashing(fold, entries, i, k)
  {
    var kept := Once(fold, entries);
    OnceMembers(fold, entries, kept[a]);
    OnceMembers(fold, entries, kept[b]);
    assert KeyOf(fold, kept[a]) != KeyOf(fold, kept[b]);
    i := KeptIsFirst(fold, entries, kept[a]);
    k := KeptIsFirst(fold, entries, kept[b]);
  }

  /** The paths that `layout` keeps are pairwise distinct exactly when no two laid-out files clash. */
  lemma {:induction false} PathsDistinctIff(fold: Fold, entries: seq<Entry>)
    ensures DistinctPaths(Once(fold, entries)) <==> forall i: nat, k: nat :: !Clashing(fold, entries, i, k)
  {
    var kept := Once(fold, entries);
    if i: nat, k: nat :| Clashing(fold, entries, i, k) {
      ClashIsKept(fold, entries, i, k);
    } else {
      forall a, b | 0 <= a < b < |kept| ensures !SamePath(kept[a], kept[b]) {
        if SamePath(kept[a], kept[b]) { var i, k := KeptClash(fold, entries, a, b); }
      }
    }
  }

  /** Two sizes of one path, both laid out: both are kept. */
  lemma {:induction false} TwoSizesAreKept(fold: Fold, folder: string, p: Option<nat>, r: Option<nat>)
    requires p != r
    ensures var entries := [Entry(folder, "a.m4b", p, 0), Entry(folder, "a.m4b", r, 1)];
      Clashing(fold, entries, 0, 1) && !DistinctPaths(Once(fold, entries))
  {
    var entries := [Entry(folder, "a.m4b", p, 0), Entry(folder, "a.m4b", r, 1)];
    assert entries[..0] == [] && entries[..1] == [entries[0]];
    assert "a.m4b"[1] == '.' && HasDot("a.m4b");
    ClashIsKept(fold, entries, 0, 1);
  }
}
