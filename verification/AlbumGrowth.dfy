/** How much one run of the folder route adds to one album, over all folders. */
module AlbumGrowth {
  import opened Basics
  import opened AlbumFills

  function TaggedIn(x: Lexicon, records: seq<Record>, folder: string): set<nat> {
    set j: nat | j < |records| && records[j].folder == folder && Tagged(x, records[j])
  }

  /** The folder's tagged files, two at least, all carry this identity, and its untagged ones are no more than the
      library already tags on it. */
  ghost predicate AnswersFor(x: Lexicon, records: seq<Record>, folder: string, key: string) {
    && |TaggedIn(x, records, folder)| >= 2
    && (forall j :: j in TaggedIn(x, records, folder) ==> x.key(records[j].album.value) == key)
    && |UntaggedIn(x, records, folder)| <= |OnAlbum(x, records, key)|
  }

  // ---- the folder answer is one for the whole folder ----

  function TaggedUpTo(x: Lexicon, records: seq<Record>, i: nat, n: nat): set<nat>
    requires i < |records| && n <= |records|
  {
    set j: nat | j < n && Sibling(records, i, j) && Tagged(x, records[j])
  }

  lemma {:induction false} UpToGrows(x: Lexicon, records: seq<Record>, i: nat, n: nat)
    requires i < |records| && 0 < n <= |records|
    ensures TaggedUpTo(x, records, i, n) ==
      TaggedUpTo(x, records, i, n - 1) + if Sibling(records, i, n - 1) && Tagged(x, records[n - 1]) then {n - 1} else {}
  {
  }

  lemma {:induction false} BesideCounts(x: Lexicon, records: seq<Record>, i: nat, n: nat)
    requires i < |records| && n <= |records|
    ensures |TaggedBeside(x, records, i, n)| == |TaggedUpTo(x, records, i, n)|
  {
    if n > 0 {
      BesideCounts(x, records, i, n - 1);
      UpToGrows(x, records, i, n);
    }
  }

  /** Each spelling beside a file is that of a tagged one. */
  lemma {:induction false} BesideComesFrom(x: Lexicon, records: seq<Record>, i: nat, n: nat, s: string) returns (j: nat)
    requires i < |records| && n <= |records| && s in TaggedBeside(x, records, i, n)
    ensures j in TaggedUpTo(x, records, i, n) && records[j].album == Some(s)
  {
    if s in TaggedBeside(x, records, i, n - 1) { j := BesideComesFrom(x, records, i, n - 1, s); } else { j := n - 1; }
  }

  /** Beside an untagged file stand the tagged files of its folder. */
  lemma {:induction false} BesideIsTaggedIn(x: Lexicon, records: seq<Record>, i: nat)
    requires i < |records| && Untagged(x, records[i])
    ensures TaggedUpTo(x, records, i, |records|) == TaggedIn(x, records, records[i].folder)
  {
  }

  lemma {:induction false} OneIdentityIff(x: Lexicon, records: seq<Record>, i: nat, key: string)
    requires i < |records| && Untagged(x, records[i]) && TaggedBeside(x, records, i, |records|) != []
    ensures var strings := TaggedBeside(x, records, i, |records|);
      OneIdentity(x, strings) && x.key(strings[0]) == key <==>
        forall j :: j in TaggedIn(x, records, records[i].folder) ==> x.key(records[j].album.value) == key
  {
    var strings := TaggedBeside(x, records, i, |records|);
    BesideIsTaggedIn(x, records, i);
    if OneIdentity(x, strings) && x.key(strings[0]) == key {
      forall j | j in TaggedIn(x, records, records[i].folder) ensures x.key(records[j].album.value) == key {
        BesideIsSeen(x, records, i, |records|, j);
        var m :| 0 <= m < |strings| && strings[m] == records[j].album.value;
      }
    } else {
      var m :| 0 <= m < |strings| && x.key(strings[m]) != key;
      var j := BesideComesFrom(x, records, i, |records|, strings[m]);
    }
  }

  /** An untagged file is answered by its folder, and every untagged file of the folder alike. */
  lemma {:induction false} FolderAnswerIff(x: Lexicon, records: seq<Record>, sizes: map<string, nat>, i: nat,
                                           key: string)
    requires i < |records| && Untagged(x, records[i])
    requires forall k :: (if k in sizes then sizes[k] else 0) == |OnAlbum(x, records, k)|
    ensures var a := FolderAnswer(x, records, sizes, i);
      a.Some? && x.key(a.value.album) == key <==> AnswersFor(x, records, records[i].folder, key)
  {
    FolderAnswerReads(x, records, sizes, i, key);
    BesideCounts(x, records, i, |records|);
    BesideIsTaggedIn(x, records, i);
    FolderCountsAll(x, records, i);
    if TaggedBeside(x, records, i, |records|) != [] { OneIdentityIff(x, records, i, key); }
  }

  lemma {:induction false} FolderAnswerReads(x: Lexicon, records: seq<Record>, sizes: map<string, nat>, i: nat,
                                             key: string)
    requires i < |records|
    requires forall k :: (if k in sizes then sizes[k] else 0) == |OnAlbum(x, records, k)|
    ensures var a, strings := FolderAnswer(x, records, sizes, i), TaggedBeside(x, records, i, |records|);
      a.Some? && x.key(a.value.album) == key <==>
        && |strings| >= 2 && OneIdentity(x, strings) && x.key(strings[0]) == key
        && 1 + |UntaggedBeside(x, records, i)| <= |OnAlbum(x, records, key)|
  {
    var strings := TaggedBeside(x, records, i, |records|);
    var won := Winner(x, strings);
    if won.Some? { assert strings[0] in strings && x.key(strings[0]) == x.key(won.value.album); }
  }

  // ---- what a run adds to one album ----

  /** The files that the folder route puts on one album identity. */
  function Growth(x: Lexicon, records: seq<Record>, decisions: seq<Decision>, key: string): set<nat> {
    set d: nat | d < |decisions| && decisions[d].verdict.Some? && decisions[d].verdict.value.route == Folder
                 && x.key(decisions[d].verdict.value.answer.album) == key && decisions[d].index < |records|
      :: decisions[d].index
  }

  /** What that will be, read off the records: candidates without a twin answer in folders that answer for it. */
  ghost function Expected(x: Lexicon, records: seq<Record>, routes: Routes, tolerance: real, key: string): set<nat> {
    set i: nat | i < |records| && Fillable(x, records, routes, tolerance, i) &&
                 AnswersFor(x, records, records[i].folder, key)
  }

  ghost predicate Fillable(x: Lexicon, records: seq<Record>, routes: Routes, tolerance: real, i: nat)
    requires i < |records|
  {
    Candidate(x, records[i]) && routes.folder && !(routes.twins && TwinOf(x, records, tolerance, i).Some?)
  }

  /** A decision is a folder fill on this identity exactly when its record is expected to be one. */
  lemma {:induction false} FillIff(x: Lexicon, records: seq<Record>, sizes: map<string, nat>, routes: Routes,
                                   tolerance: real, replies: seq<Reply>, budget: nat, d: Decision, key: string)
    requires Sound(x, records, sizes, routes, tolerance, replies, budget, d) && Candidate(x, records[d.index])
    requires forall k :: (if k in sizes then sizes[k] else 0) == |OnAlbum(x, records, k)|
    ensures d.verdict.Some? && d.verdict.value.route == Folder && x.key(d.verdict.value.answer.album) == key <==>
      d.index in Expected(x, records, routes, tolerance, key)
  {
    var twin, folder := TwinOf(x, records, tolerance, d.index), FolderAnswer(x, records, sizes, d.index);
    FolderAnswerIff(x, records, sizes, d.index, key);
    VerdictIff(x, records, sizes, routes, tolerance, replies, budget, d, twin, folder);
  }

  lemma {:induction false} VerdictIff(x: Lexicon, records: seq<Record>, sizes: map<string, nat>, routes: Routes,
                                      tolerance: real, replies: seq<Reply>, budget: nat, d: Decision,
                                      twin: Option<Answer>, folder: Option<Answer>)
    requires Sound(x, records, sizes, routes, tolerance, replies, budget, d)
    requires twin == TwinOf(x, records, tolerance, d.index) && folder == FolderAnswer(x, records, sizes, d.index)
    ensures d.verdict.Some? && d.verdict.value.route == Folder <==>
      routes.folder && folder.Some? && !(routes.twins && twin.Some?)
    ensures d.verdict.Some? && d.verdict.value.route == Folder ==> d.verdict.value.answer == folder.value
  {
    if Both(routes, twin, folder) != [] {
      BothVerdict(x, routes, twin, folder);
    } else {
      RemoteVerdict(x, records, sizes, routes, tolerance, replies, budget, d);
    }
  }

  lemma {:induction false} BothVerdict(x: Lexicon, routes: Routes, twin: Option<Answer>, folder: Option<Answer>)
    ensures var v := Verdict(x, Both(routes, twin, folder));
      && (v.Some? && v.value.route == Folder <==> routes.folder && folder.Some? && !(routes.twins && twin.Some?))
      && (v.Some? && v.value.route == Folder ==> v.value.answer == folder.value)
  {
  }

  /** Where the offline routes are silent only MusicBrainz can answer. */
  lemma {:induction false} RemoteVerdict(x: Lexicon, records: seq<Record>, sizes: map<string, nat>, routes: Routes,
                                         tolerance: real, replies: seq<Reply>, budget: nat, d: Decision)
    requires Sound(x, records, sizes, routes, tolerance, replies, budget, d)
    requires Offline(x, records, sizes, routes, tolerance, d.index) == []
    ensures d.verdict.Some? ==> d.verdict.value.route == MusicBrainz
  {
  }

  /** The run adds exactly the expected files, whatever MusicBrainz says. */
  lemma {:induction false} GrowthIsExpected(x: Lexicon, records: seq<Record>, sizes: map<string, nat>, routes: Routes,
                                            tolerance: real, replies: seq<Reply>, budget: nat,
                                            decisions: seq<Decision>, key: string)
    requires |records| == |replies|
    requires Decided(x, records, sizes, routes, tolerance, replies, budget, decisions, |records|)
    requires forall k :: (if k in sizes then sizes[k] else 0) == |OnAlbum(x, records, k)|
    ensures Growth(x, records, decisions, key) == Expected(x, records, routes, tolerance, key)
  {
    forall i | i in Growth(x, records, decisions, key) ensures i in Expected(x, records, routes, tolerance, key) {
      var d: nat :| d < |decisions| && decisions[d].index == i && decisions[d].verdict.Some? &&
        decisions[d].verdict.value.route == Folder && x.key(decisions[d].verdict.value.answer.album) == key;
      FillIff(x, records, sizes, routes, tolerance, replies, budget, decisions[d], key);
    }
    forall i | i in Expected(x, records, routes, tolerance, key) ensures i in Growth(x, records, decisions, key) {
      var d: nat :| d < |decisions| && decisions[d].index == i;
      FillIff(x, records, sizes, routes, tolerance, replies, budget, decisions[d], key);
    }
  }

  // ---- how large that can be ----

  function Folders(records: seq<Record>): set<string> { set i | 0 <= i < |records| :: records[i].folder }

  /** The folders that answer for an identity. */
  ghost function Answering(x: Lexicon, records: seq<Record>, key: string): set<string> {
    set f | f in Folders(records) && AnswersFor(x, records, f, key)
  }

  function Within(records: seq<Record>, all: set<nat>, folders: set<string>): set<nat> {
    set i | i in all && i < |records| && records[i].folder in folders
  }

  lemma {:induction false} WithinSplits(records: seq<Record>, all: set<nat>, folders: set<string>, f: string)
    requires f in folders
    ensures |Within(records, all, folders)| == |Within(records, all, {f})| + |Within(records, all, folders - {f})|
  {
    assert Within(records, all, folders) == Within(records, all, {f}) + Within(records, all, folders - {f});
  }

  /** If each folder holds at least `least` and at most `most` of them, so do all together. */
  lemma {:induction false} CountByFolder(records: seq<Record>, all: set<nat>, folders: set<string>, least: nat,
                                         most: nat)
    requires forall f :: f in folders ==> least <= |Within(records, all, {f})| <= most
    ensures |folders| * least <= |Within(records, all, folders)| <= |folders| * most
    decreases |folders|
  {
    if f :| f in folders {
      var rest := folders - {f};
      WithinSplits(records, all, folders, f);
      CountByFolder(records, all, rest, least, most);
      assert |folders| == |rest| + 1;
      assert |folders| * least == |rest| * least + least && |folders| * most == |rest| * most + most;
    } else {
      assert Within(records, all, folders) == {};
    }
  }

  /** One answering folder: two tagged files or more, and no more fills than the album has files. */
  lemma {:induction false} FolderShares(x: Lexicon, records: seq<Record>, routes: Routes, tolerance: real, key: string,
                                        f: string)
    requires f in Answering(x, records, key)
    ensures 2 <= |Within(records, OnAlbum(x, records, key), {f})| <= |records|
    ensures |Within(records, Expected(x, records, routes, tolerance, key), {f})| <= |OnAlbum(x, records, key)|
  {
    Subset(TaggedIn(x, records, f), Within(records, OnAlbum(x, records, key), {f}));
    Subset(Within(records, Expected(x, records, routes, tolerance, key), {f}), UntaggedIn(x, records, f));
    RangeSize(0, |records|);
    Subset(Within(records, OnAlbum(x, records, key), {f}), Range(0, |records|));
  }

  /** Over all folders a run adds to an album no more than its size for each folder that answers for it, and its size
      is at least twice the number of those folders. */
  lemma {:induction false} AlbumGrowsAtMost(x: Lexicon, records: seq<Record>, routes: Routes, tolerance: real,
                                            key: string)
    ensures var n, folders := |OnAlbum(x, records, key)|, |Answering(x, records, key)|;
      |Expected(x, records, routes, tolerance, key)| <= folders * n && 2 * folders <= n
  {
    var folders, all := Answering(x, records, key), Expected(x, records, routes, tolerance, key);
    var tagged := OnAlbum(x, records, key);
    forall f | f in folders
      ensures 2 <= |Within(records, tagged, {f})| <= |records| && |Within(records, all, {f})| <= |tagged|
    {
      FolderShares(x, records, routes, tolerance, key, f);
    }
    CountByFolder(records, all, folders, 0, |tagged|);
    CountByFolder(records, tagged, folders, 2, |records|);
    assert Within(records, all, folders) == all;
    Subset(Within(records, tagged, folders), tagged);
  }

  /** "An album does not grow by more than itself", over the whole run: exactly when the candidates of all the folders
      that answer for it, twins aside, are no more than its files. One answering folder is enough for that. */
  lemma {:induction false} OutgrowsIff(x: Lexicon, records: seq<Record>, sizes: map<string, nat>, routes: Routes,
                                       tolerance: real, replies: seq<Reply>, budget: nat, decisions: seq<Decision>,
                                       key: string)
    requires |records| == |replies|
    requires Decided(x, records, sizes, routes, tolerance, replies, budget, decisions, |records|)
    requires forall k :: (if k in sizes then sizes[k] else 0) == |OnAlbum(x, records, k)|
    ensures |Growth(x, records, decisions, key)| <= |OnAlbum(x, records, key)| <==>
      |Expected(x, records, routes, tolerance, key)| <= |OnAlbum(x, records, key)|
    ensures |Answering(x, records, key)| <= 1 ==>
      |Growth(x, records, decisions, key)| <= |OnAlbum(x, records, key)|
  {
    GrowthIsExpected(x, records, sizes, routes, tolerance, replies, budget, decisions, key);
    AlbumGrowsAtMost(x, records, routes, tolerance, key);
    if |Answering(x, records, key)| == 0 {
      assert 0 * |OnAlbum(x, records, key)| == 0;
    } else if |Answering(x, records, key)| == 1 {
      assert 1 * |OnAlbum(x, records, key)| == |OnAlbum(x, records, key)|;
    }
  }

  // ---- the bound is reached ----

  /** Names as they are, "" the only placeholder, every folder trusted. */
  const PLAIN := Lexicon(s => s, s => s, s => s == "", s => false, (s, t) => true, s => true)

  /** Two folders, each with two files tagged "LP" and four without an album. */
  function TwoFolders(): (records: seq<Record>)
    ensures |records| == 12 && forall i :: 0 <= i < 12 ==> records[i] == Track(i)
  {
    seq(12, i => Track(i))
  }

  function Track(i: int): Record {
    Record("", if i < 6 then "A" else "B", Some("top"), false, if i % 6 < 2 then Some("LP") else None, "song", 1.0,
           None, None)
  }

  const FOLDER_ONLY := Routes(false, true, false)

  lemma {:induction false} TracksOf(folder: string, from: nat)
    requires (folder == "A" && from == 0) || (folder == "B" && from == 6)
    ensures TaggedIn(PLAIN, TwoFolders(), folder) == Range(from, from + 2)
    ensures UntaggedIn(PLAIN, TwoFolders(), folder) == Range(from + 2, from + 6)
  {
  }

  lemma {:induction false} OnLP()
    ensures |OnAlbum(PLAIN, TwoFolders(), "LP")| == 4
  {
    var first, second := Range(0, 2), Range(6, 8);
    RangeSize(0, 2);
    RangeSize(6, 8);
    assert OnAlbum(PLAIN, TwoFolders(), "LP") == first + second;
  }

  lemma {:induction false} BothAnswer()
    ensures AnswersFor(PLAIN, TwoFolders(), "A", "LP") && AnswersFor(PLAIN, TwoFolders(), "B", "LP")
  {
    OnLP();
    TracksOf("A", 0);
    TracksOf("B", 6);
    RangeSize(0, 2);
    RangeSize(2, 6);
    RangeSize(6, 8);
    RangeSize(8, 12);
  }

  /** The guard passes in each folder, and an album of four files grows by eight. */
  lemma {:induction false} AlbumOutgrowsItself(sizes: map<string, nat>, tolerance: real, replies: seq<Reply>,
                                               budget: nat, decisions: seq<Decision>)
    requires |replies| == 12
    requires Decided(PLAIN, TwoFolders(), sizes, FOLDER_ONLY, tolerance, replies, budget, decisions, 12)
    requires forall k :: (if k in sizes then sizes[k] else 0) == |OnAlbum(PLAIN, TwoFolders(), k)|
    ensures |OnAlbum(PLAIN, TwoFolders(), "LP")| == 4 && |Growth(PLAIN, TwoFolders(), decisions, "LP")| == 8
  {
    OnLP();
    GrowthIsExpected(PLAIN, TwoFolders(), sizes, FOLDER_ONLY, tolerance, replies, budget, decisions, "LP");
    ExpectedEight(tolerance);
  }

  lemma {:induction false} ExpectedEight(tolerance: real)
    ensures |Expected(PLAIN, TwoFolders(), FOLDER_ONLY, tolerance, "LP")| == 8
  {
    var first, second := Range(2, 6), Range(8, 12);
    RangeSize(2, 6);
    RangeSize(8, 12);
    BothAnswer();
    var expected := Expected(PLAIN, TwoFolders(), FOLDER_ONLY, tolerance, "LP");
    forall i: nat ensures i in expected <==> i in first || i in second {
      if i < 12 { TrackIsFillable(tolerance, i); }
    }
    assert expected == first + second;
  }

  lemma {:induction false} TrackIsFillable(tolerance: real, i: nat)
    requires i < 12
    ensures Fillable(PLAIN, TwoFolders(), FOLDER_ONLY, tolerance, i) <==> i % 6 >= 2
  {
  }
}
