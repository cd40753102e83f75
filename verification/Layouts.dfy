/** What ends up in the audiobook catalog, read off the fetched links. */
module Layouts {
  import opened Basics
  import opened Catalogs

  /** Where a link's files go: a collection under its root's place, a link that no collection has under its item's. */
  ghost predicate GoesUnder(collections: seq<Link>, fetched: seq<Link>, l: Link, prefix: string) {
    || (l in collections && l.root in ROOT_MAP && prefix == ROOT_MAP[l.root])
    || (l in fetched && l.root in ITEM_MAP && prefix == ITEM_MAP[l.root] + "/" + l.root
        && forall c :: c in collections ==> c.code != l.code)
  }

  /** The file as it is entered: its own name, size and number, its folder below the link's. */
  ghost predicate EnteredAs(prefix: string, file: Entry, e: Entry) {
    && e.name == file.name && e.size == file.size && e.id == file.id
    && (if file.folder == "" then e.folder == prefix else e.folder == prefix + "/" + file.folder)
  }

  /** Exactly the files of the placed links are laid out. */
  lemma {:induction false} LaidIff(collections: seq<Link>, fetched: seq<Link>, e: Entry)
    requires forall l :: l in collections ==> l.root in ROOT_MAP
    ensures e in Laid(Parts(collections, fetched)) <==>
      exists l, prefix, file ::
        GoesUnder(collections, fetched, l, prefix) && file in l.files && EnteredAs(prefix, file, e)
  {
    var parts := Parts(collections, fetched);
    if e in Laid(parts) {
      var part, file := LaidFrom(parts, e);
      PartIff(collections, fetched, part.0, part.1);
      assert EnteredAs(part.0, file, e);
    }
    if l, prefix, file :|
      GoesUnder(collections, fetched, l, prefix) && file in l.files && EnteredAs(prefix, file, e)
    {
      PartIff(collections, fetched, prefix, l);
      assert e == Prefixed(prefix, file);
      LaidHas(parts, (prefix, l), file);
    }
  }

  lemma {:induction false} LaidFrom(parts: seq<(string, Link)>, e: Entry) returns (part: (string, Link), file: Entry)
    requires e in Laid(parts)
    ensures part in parts && file in part.1.files && e == Prefixed(part.0, file)
  {
    var n := |parts| - 1;
    if e in Laid(parts[..n]) {
      part, file := LaidFrom(parts[..n], e);
    } else {
      part := parts[n];
      var i :| 0 <= i < |part.1.files| && PrefixedAll(part.0, part.1.files)[i] == e;
      file := part.1.files[i];
    }
  }

  lemma {:induction false} LaidHas(parts: seq<(string, Link)>, part: (string, Link), file: Entry)
    requires part in parts && file in part.1.files
    ensures Prefixed(part.0, file) in Laid(parts)
  {
    var n := |parts| - 1;
    if part in parts[..n] {
      LaidHas(parts[..n], part, file);
    } else {
      assert part == parts[n];
      var i :| 0 <= i < |part.1.files| && part.1.files[i] == file;
      assert PrefixedAll(part.0, part.1.files)[i] == Prefixed(part.0, file);
    }
  }

  lemma {:induction false} PartIff(collections: seq<Link>, fetched: seq<Link>, prefix: string, l: Link)
    requires forall l :: l in collections ==> l.root in ROOT_MAP
    ensures (prefix, l) in Parts(collections, fetched) <==> GoesUnder(collections, fetched, l, prefix)
  {
    CollectionPartIff(collections, prefix, l);
    ExtraPartIff(collections, fetched, prefix, l);
    var a, b := CollectionParts(collections), ExtraParts(collections, fetched);
    assert (prefix, l) in a + b <==> (prefix, l) in a || (prefix, l) in b;
  }

  lemma {:induction false} CollectionPartIff(collections: seq<Link>, prefix: string, l: Link)
    requires forall l :: l in collections ==> l.root in ROOT_MAP
    ensures (prefix, l) in CollectionParts(collections) <==> l in collections && prefix == ROOT_MAP[l.root]
  {
    var parts := CollectionParts(collections);
    if l in collections && prefix == ROOT_MAP[l.root] {
      var i :| 0 <= i < |collections| && collections[i] == l;
      assert parts[i] == (prefix, l);
    }
  }

  lemma {:induction false} ExtraPartIff(collections: seq<Link>, fetched: seq<Link>, prefix: string, l: Link)
    ensures (prefix, l) in ExtraParts(collections, fetched) <==>
      && l in fetched && l.root in ITEM_MAP && prefix == ITEM_MAP[l.root] + "/" + l.root
      && forall c :: c in collections ==> c.code != l.code
  {
    if fetched != [] {
      var n := |fetched| - 1;
      ExtraPartIff(collections, fetched[..n], prefix, l);
      assert fetched == fetched[..n] + [fetched[n]];
      ExtraIff(collections, fetched[n]);
    }
  }

  lemma {:induction false} ExtraIff(collections: seq<Link>, l: Link)
    ensures Extra(collections, l) <==> l.root in ITEM_MAP && forall c :: c in collections ==> c.code != l.code
  {
    if !Covered(collections, l.code) {
      forall c | c in collections ensures c.code != l.code {
        var i :| 0 <= i < |collections| && collections[i] == c;
      }
    } else {
      var i :| 0 <= i < |collections| && collections[i].code == l.code;
      assert collections[i] in collections;
    }
  }

  // ---- what is kept of it ----

  function Kept(fold: Fold, junk: string -> bool, byPath: (Entry, Entry) -> bool, laid: seq<Entry>): seq<Entry> {
    Once(fold, SortBy(Sift(laid, JunkTest(junk)), byPath))
  }

  /** A kept file with the same name, case and blanks aside, and the same size. */
  ghost predicate Doubled(fold: Fold, kept: seq<Entry>, e: Entry) {
    exists k :: k in kept && fold(k.name) == fold(e.name) && k.size == e.size
  }

  /** A file of that key that has no extension, and beside it a kept one of the same name that has one. */
  ghost predicate Outdone(fold: Fold, kept: seq<Entry>, laid: seq<Entry>, e: Entry) {
    exists s, k ::
      && s in laid && fold(s.name) == fold(e.name) && s.size == e.size && '.' !in s.name
      && k in kept && k.folder == s.folder && '.' in k.name && fold(Stem(k.name)) == fold(s.name)
  }

  /** No junk and nothing made up is kept; and every file with a proper name is there, or a kept file stands for it. */
  lemma {:induction false} KeptStands(fold: Fold, junk: string -> bool, byPath: (Entry, Entry) -> bool,
                                      laid: seq<Entry>, e: Entry)
    ensures var kept := Kept(fold, junk, byPath, laid);
      && (e in kept ==> e in laid && e.name != "" && !junk(e.name))
      && (e in laid && e.name != "" && !junk(e.name) ==> Doubled(fold, kept, e) || Outdone(fold, kept, laid, e))
  {
    var proper := Sift(laid, JunkTest(junk));
    var sorted := SortBy(proper, byPath);
    SiftMembers(laid, JunkTest(junk));
    forall f ensures f in sorted <==> f in proper {
      assert f in sorted <==> f in multiset(sorted);
      assert f in proper <==> f in multiset(proper);
    }
    OnceStands(fold, sorted, e);
    OnceComesFrom(fold, sorted, e);
    var kept := Once(fold, sorted);
    if e in sorted && !Doubled(fold, kept, e) {
      assert Outdone(fold, kept, sorted, e);
      var s, k :|
        && s in sorted && fold(s.name) == fold(e.name) && s.size == e.size && '.' !in s.name
        && k in kept && k.folder == s.folder && '.' in k.name && fold(Stem(k.name)) == fold(s.name);
      assert s in laid;
    }
  }

  lemma {:induction false} OnceComesFrom(fold: Fold, sorted: seq<Entry>, e: Entry)
    ensures e in Once(fold, sorted) ==> e in sorted
  {
    OnceMembers(fold, sorted, e);
    if e in Firsts(fold, sorted) { var i := KeptIsFirst(fold, sorted, e); }
  }

  lemma {:induction false} OnceStands(fold: Fold, sorted: seq<Entry>, e: Entry)
    ensures e in sorted ==> Doubled(fold, Once(fold, sorted), e) || Outdone(fold, Once(fold, sorted), sorted, e)
  {
    if e in sorted {
      var once, kept := Firsts(fold, sorted), Once(fold, sorted);
      FirstsHaveAllKeys(fold, sorted);
      assert KeyOf(fold, e) in KeysOf(fold, once);
      var s :| s in once && KeyOf(fold, s) == KeyOf(fold, e);
      OnceMembers(fold, sorted, s);
      if s !in kept {
        var k :| k in once && HasDot(k.name) && PlaceOf(fold, k) == Place(fold(s.name), s.folder);
        OnceMembers(fold, sorted, k);
        var i := KeptIsFirst(fold, sorted, s);
        assert Outdone(fold, kept, sorted, e);
      }
    }
  }
}
