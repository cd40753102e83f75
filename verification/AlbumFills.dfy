/** The album fill: which untagged files may take an album name, and from whom. */
module AlbumFills {
  import opened Basics

  datatype Record = Record(path: string, folder: string, top: Option<string>, error: bool, album: Option<string>,
                           title: string, length: real, artist: Option<string>, albumArtist: Option<string>)

  /** The text tests of the pass: album identity, title key, placeholders, artist agreement, trusted folders. */
  datatype Lexicon = Lexicon(key: string -> string, tidy: string -> string, placeholder: string -> bool,
                             untitled: string -> bool, agree: (string, string) -> bool, trusted: string -> bool)

  predicate Tagged(x: Lexicon, r: Record) {
    !r.error && r.album.Some? && !x.placeholder(x.key(r.album.value))
  }

  predicate Untagged(x: Lexicon, r: Record) {
    !r.error && (r.album.None? || x.placeholder(x.key(r.album.value)))
  }

  predicate Titled(x: Lexicon, r: Record) {
    r.title != "" && !x.untitled(x.tidy(r.title))
  }

  /** The records `decide` asks its routes about. */
  predicate Candidate(x: Lexicon, r: Record) {
    Untagged(x, r) && r.top.Some? && x.trusted(r.top.value) && Titled(x, r) && r.length != 0.0
  }

  // ---- the winner among candidate spellings ----

  function Times(s: string, strings: seq<string>): nat { multiset(strings)[s] }

  /** The most common spelling, the earliest of them on a tie. */
  function MostCommon(strings: seq<string>): (s: string)
    requires strings != []
    ensures s in strings && forall t :: t in strings ==> Times(t, strings) <= Times(s, strings)
  {
    var i := Leader(strings, |strings|);
    strings[i]
  }

  function Leader(strings: seq<string>, n: nat): (i: nat)
    requires 0 < n <= |strings|
    ensures i < n && forall k :: 0 <= k < n ==> Times(strings[k], strings) <= Times(strings[i], strings)
    ensures forall k :: 0 <= k < i ==> Times(strings[k], strings) < Times(strings[i], strings)
  {
    if n == 1 then 0
    else
      var i := Leader(strings, n - 1);
      if Times(strings[n - 1], strings) > Times(strings[i], strings) then n - 1 else i
  }

  /** Nothing is more common than the i-th spelling, and everything before it is less common. */
  ghost predicate Leads(strings: seq<string>, i: nat) {
    && i < |strings|
    && (forall k :: 0 <= k < |strings| ==> Times(strings[k], strings) <= Times(strings[i], strings))
    && (forall k :: 0 <= k < i ==> Times(strings[k], strings) < Times(strings[i], strings))
  }

  /** The most common spelling, and of several the one that comes first, is the answer; there is always one. */
  lemma {:induction false} MostCommonLeads(strings: seq<string>)
    requires strings != []
    ensures exists i: nat :: Leads(strings, i) && strings[i] == MostCommon(strings)
    ensures forall i: nat, k: nat :: Leads(strings, i) && Leads(strings, k) ==> i == k
  {
    assert Leads(strings, Leader(strings, |strings|));
  }

  /** Every spelling has one album identity. */
  predicate OneIdentity(x: Lexicon, strings: seq<string>) {
    forall i :: 0 <= i < |strings| ==> x.key(strings[i]) == x.key(strings[0])
  }

  datatype Answer = Answer(album: string, seen: seq<string>)

  /** `_winner`: a single album identity, or nothing. */
  function Winner(x: Lexicon, strings: seq<string>): (a: Option<Answer>)
    ensures a.Some? <==> strings != [] && OneIdentity(x, strings)
    ensures a.Some? ==> a.value.seen == strings && a.value.album in strings
    ensures a.Some? ==> forall s :: s in strings ==> x.key(s) == x.key(a.value.album)
  {
    if strings == [] || !OneIdentity(x, strings) then None
    else Some(Answer(MostCommon(strings), strings))
  }

  // ---- the twin route ----

  datatype Twin = Twin(length: real, album: string, artists: seq<string>)

  function Artists(r: Record): seq<string> {
    (if r.artist.Some? then [r.artist.value] else []) + if r.albumArtist.Some? then [r.albumArtist.value] else []
  }

  predicate CanAnswer(x: Lexicon, r: Record) {
    Tagged(x, r) && Titled(x, r)
  }

  function AsTwin(r: Record): Twin
    requires r.album.Some?
  {
    Twin(r.length, r.album.value, Artists(r))
  }

  /** The files that could answer for one title. */
  function TwinsFor(x: Lexicon, records: seq<Record>, title: string): seq<Twin> {
    if records == [] then []
    else
      var n := |records| - 1;
      TwinsFor(x, records[..n], title) +
      if CanAnswer(x, records[n]) && x.tidy(records[n].title) == title then [AsTwin(records[n])] else []
  }

  predicate Close(a: real, b: real, tolerance: real) {
    -tolerance <= a - b <= tolerance
  }

  predicate Matches(x: Lexicon, t: Twin, r: Record, artist: string, tolerance: real) {
    t.length != 0.0 && Close(t.length, r.length, tolerance) &&
    exists i :: 0 <= i < |t.artists| && t.artists[i] != "" && x.agree(artist, t.artists[i])
  }

  function MatchingAlbums(x: Lexicon, twins: seq<Twin>, r: Record, artist: string, tolerance: real): seq<string> {
    if twins == [] then []
    else
      var n := |twins| - 1;
      MatchingAlbums(x, twins[..n], r, artist, tolerance) +
      if Matches(x, twins[n], r, artist, tolerance) then [twins[n].album] else []
  }

  function TwinAnswer(x: Lexicon, twins: seq<Twin>, r: Record, artist: string, tolerance: real): Option<Answer> {
    if !Titled(x, r) || r.length == 0.0 then None
    else Winner(x, MatchingAlbums(x, twins, r, artist, tolerance))
  }

  // ---- the folder route ----

  const MIN_TAGGED_SIBLINGS := 2

  predicate Sibling(records: seq<Record>, i: nat, j: nat)
    requires i < |records| && j < |records|
  {
    j != i && !records[j].error && records[j].folder == records[i].folder
  }

  /** The albums the tagged files beside record i carry. */
  function TaggedBeside(x: Lexicon, records: seq<Record>, i: nat, n: nat): seq<string>
    requires i < |records| && n <= |records|
  {
    if n == 0 then []
    else
      TaggedBeside(x, records, i, n - 1) +
      if Sibling(records, i, n - 1) && Tagged(x, records[n - 1]) then [records[n - 1].album.value] else []
  }

  function UntaggedBeside(x: Lexicon, records: seq<Record>, i: nat): set<nat>
    requires i < |records|
  {
    set j: nat | j < |records| && Sibling(records, i, j) && Untagged(x, records[j])
  }

  /** The files the library already tags onto one album identity. */
  function OnAlbum(x: Lexicon, records: seq<Record>, key: string): set<nat> {
    set j: nat | j < |records| && Tagged(x, records[j]) && x.key(records[j].album.value) == key
  }

  /** `folder_answer`: two agreeing siblings, and no more files added than the album has. */
  function FolderAnswer(x: Lexicon, records: seq<Record>, sizes: map<string, nat>, i: nat): Option<Answer>
    requires i < |records|
  {
    var strings := TaggedBeside(x, records, i, |records|);
    var won := Winner(x, strings);
    if won.None? || |strings| < MIN_TAGGED_SIBLINGS then None
    else
      var key := x.key(won.value.album);
      if 1 + |UntaggedBeside(x, records, i)| > (if key in sizes then sizes[key] else 0) then None else won
  }

  // ---- the decision ----

  datatype Route = Twins | Folder | MusicBrainz

  datatype Named = Named(route: Route, answer: Answer)

  datatype Routes = Routes(twins: bool, folder: bool, musicBrainz: bool)

  /** What MusicBrainz would say: whether a request is sent, and the timed, credited albums it names. */
  datatype Reply = Reply(requested: bool, timed: seq<string>)

  function ArtistOf(r: Record): string {
    if r.artist.Some? && r.artist.value != "" then r.artist.value
    else if r.top.Some? then r.top.value else ""
  }

  function Both(routes: Routes, twin: Option<Answer>, folder: Option<Answer>): seq<Named> {
    (if routes.twins && twin.Some? then [Named(Twins, twin.value)] else []) +
    if routes.folder && folder.Some? then [Named(Folder, folder.value)] else []
  }

  function TwinOf(x: Lexicon, records: seq<Record>, tolerance: real, i: nat): Option<Answer>
    requires i < |records|
  {
    TwinAnswer(x, TwinsFor(x, records, x.tidy(records[i].title)), records[i], ArtistOf(records[i]), tolerance)
  }

  /** The answers of the routes that need no network, in order. */
  function Offline(x: Lexicon, records: seq<Record>, sizes: map<string, nat>, routes: Routes, tolerance: real, i: nat)
    : seq<Named>
    requires i < |records|
  {
    Both(routes, TwinOf(x, records, tolerance, i), FolderAnswer(x, records, sizes, i))
  }

  /** The first answer, unless two answers name different albums. */
  function Verdict(x: Lexicon, answers: seq<Named>): Option<Named> {
    if answers == [] then None
    else if exists n :: 0 <= n < |answers| && x.key(answers[n].answer.album) != x.key(answers[0].answer.album) then None
    else Some(answers[0])
  }

  datatype Decision = Decision(index: nat, answers: seq<Named>, verdict: Option<Named>)

  // ---- the tables `decide` builds first ----

  /** The index holds, for every title, the files among the first n that could answer for it. */
  ghost predicate Indexed(x: Lexicon, records: seq<Record>, n: nat, index: Buckets<string, Twin>)
    requires n <= |records|
  {
    index.Valid() && forall t :: (if t in index.items then index.items[t] else []) == TwinsFor(x, records[..n], t)
  }

  lemma {:induction false} TwinsForNext(x: Lexicon, records: seq<Record>, n: nat, title: string)
    requires n < |records|
    ensures TwinsFor(x, records[..n + 1], title) == TwinsFor(x, records[..n], title) +
      if CanAnswer(x, records[n]) && x.tidy(records[n].title) == title then [AsTwin(records[n])] else []
  {
    assert records[..n + 1][..n] == records[..n];
  }

  lemma {:induction false} IndexNext(x: Lexicon, records: seq<Record>, n: nat, index: Buckets<string, Twin>)
    requires n < |records| && Indexed(x, records, n, index)
    ensures Indexed(x, records, n + 1, if CanAnswer(x, records[n])
                                       then index.Add(x.tidy(records[n].title), AsTwin(records[n])) else index)
  {
    forall t { TwinsForNext(x, records, n, t); }
  }

  method BuildTwins(x: Lexicon, records: seq<Record>) returns (index: Buckets<string, Twin>)
    ensures index.Valid()
    ensures forall t :: (if t in index.items then index.items[t] else []) == TwinsFor(x, records, t)
  {
    index := Buckets([], map[]);
    for i := 0 to |records|
      invariant Indexed(x, records, i, index)
    {
      IndexNext(x, records, i, index);
      if CanAnswer(x, records[i]) { index := index.Add(x.tidy(records[i].title), AsTwin(records[i])); }
    }
    assert records[..|records|] == records;
  }

  /** How many files are tagged onto each album identity. */
  method BuildAlbumSizes(x: Lexicon, records: seq<Record>) returns (sizes: map<string, nat>)
    ensures forall k :: (if k in sizes then sizes[k] else 0) == |OnAlbum(x, records, k)|
  {
    sizes := map[];
    forall k ensures OnAlbum(x, records[..0], k) == {} {}
    for i := 0 to |records|
      invariant forall k :: (if k in sizes then sizes[k] else 0) == |OnAlbum(x, records[..i], k)|
    {
      forall k
        ensures |OnAlbum(x, records[..i + 1], k)| ==
          |OnAlbum(x, records[..i], k)| +
          if Tagged(x, records[i]) && x.key(records[i].album.value) == k then 1 else 0
      {
        OnAlbumGrows(x, records, i, k);
      }
      if Tagged(x, records[i]) {
        var key := x.key(records[i].album.value);
        sizes := sizes[key := (if key in sizes then sizes[key] else 0) + 1];
      }
    }
    assert records[..|records|] == records;
  }

  lemma {:induction false} OnAlbumGrows(x: Lexicon, records: seq<Record>, i: nat, k: string)
    requires i < |records|
    ensures |OnAlbum(x, records[..i + 1], k)| ==
            |OnAlbum(x, records[..i], k)| + if Tagged(x, records[i]) && x.key(records[i].album.value) == k then 1 else 0
  {
    var before, after := OnAlbum(x, records[..i], k), OnAlbum(x, records[..i + 1], k);
    forall j: nat ensures j in after <==> j in before || (j == i && i in after) {
      if j < i { assert records[..i + 1][j] == records[..i][j]; }
    }
    assert after == before + if i in after then {i} else {};
  }

  // ---- the whole decision ----

  /** How many MusicBrainz requests the first n records cost; 0 is no budget. */
  function Spent(x: Lexicon, records: seq<Record>, sizes: map<string, nat>, routes: Routes, tolerance: real,
                 replies: seq<Reply>, budget: nat, n: nat): (spent: nat)
    requires n <= |records| == |replies|
    ensures budget > 0 ==> spent <= budget
  {
    if n == 0 then 0
    else
      var before := Spent(x, records, sizes, routes, tolerance, replies, budget, n - 1);
      if Consults(x, records, sizes, routes, tolerance, budget, before, n - 1) && replies[n - 1].requested
      then before + 1 else before
  }

  /** MusicBrainz is asked about a candidate the offline routes are silent about, within the budget. */
  predicate Consults(x: Lexicon, records: seq<Record>, sizes: map<string, nat>, routes: Routes, tolerance: real,
                     budget: nat, spent: nat, i: nat)
    requires i < |records|
  {
    Candidate(x, records[i]) && Offline(x, records, sizes, routes, tolerance, i) == [] &&
    routes.musicBrainz && !(budget > 0 && spent >= budget)
  }

  /** What a decision rests on: the offline answers, or MusicBrainz where they are silent. */
  ghost predicate RestsOn(x: Lexicon, records: seq<Record>, sizes: map<string, nat>, routes: Routes, tolerance: real,
                          replies: seq<Reply>, budget: nat, d: Decision)
    requires d.index < |records| == |replies|
  {
    var spent := Spent(x, records, sizes, routes, tolerance, replies, budget, d.index);
    var offline := Offline(x, records, sizes, routes, tolerance, d.index);
    if offline != [] then d.answers == offline
    else if Consults(x, records, sizes, routes, tolerance, budget, spent, d.index) then
      d.answers == Remote(Winner(x, replies[d.index].timed))
    else d.answers == []
  }

  function Remote(won: Option<Answer>): seq<Named> {
    if won.Some? then [Named(MusicBrainz, won.value)] else []
  }

  /** One decision for every candidate, in order. */
  ghost predicate Covers(x: Lexicon, records: seq<Record>, decisions: seq<Decision>, n: nat)
    requires n <= |records|
  {
    && (forall d :: 0 <= d < |decisions| ==> decisions[d].index < n && Candidate(x, records[decisions[d].index]))
    && (forall i, k :: 0 <= i < k < |decisions| ==> decisions[i].index < decisions[k].index)
    && (forall i :: 0 <= i < n && Candidate(x, records[i]) ==>
          exists d :: 0 <= d < |decisions| && decisions[d].index == i)
  }

  /** A decision is the verdict on its own answers. */
  ghost predicate Sound(x: Lexicon, records: seq<Record>, sizes: map<string, nat>, routes: Routes, tolerance: real,
                        replies: seq<Reply>, budget: nat, d: Decision) {
    && d.index < |records| == |replies|
    && RestsOn(x, records, sizes, routes, tolerance, replies, budget, d)
    && d.verdict == Verdict(x, d.answers)
  }

  ghost predicate Decided(x: Lexicon, records: seq<Record>, sizes: map<string, nat>, routes: Routes, tolerance: real,
                          replies: seq<Reply>, budget: nat, decisions: seq<Decision>, n: nat)
    requires n <= |records|
  {
    && Covers(x, records, decisions, n)
    && (forall d :: 0 <= d < |decisions| ==> Sound(x, records, sizes, routes, tolerance, replies, budget, decisions[d]))
  }

  lemma {:induction false} SkipKeepsCovers(x: Lexicon, records: seq<Record>, decisions: seq<Decision>, n: nat)
    requires n < |records| && !Candidate(x, records[n]) && Covers(x, records, decisions, n)
    ensures Covers(x, records, decisions, n + 1)
  {
  }

  lemma {:induction false} DecisionKeepsCovers(x: Lexicon, records: seq<Record>, decisions: seq<Decision>, n: nat,
                                               d: Decision)
    requires n < |records| && Candidate(x, records[n]) && d.index == n && Covers(x, records, decisions, n)
    ensures Covers(x, records, decisions + [d], n + 1)
  {
    var more := decisions + [d];
    forall i | 0 <= i < n + 1 && Candidate(x, records[i]) ensures exists k :: 0 <= k < |more| && more[k].index == i {
      if i < n {
        var k :| 0 <= k < |decisions| && decisions[k].index == i;
        assert more[k].index == i;
      } else {
        assert more[|decisions|].index == i;
      }
    }
  }

  method Assemble(routes: Routes, twin: Option<Answer>, folder: Option<Answer>) returns (answers: seq<Named>)
    ensures answers == Both(routes, twin, folder)
  {
    answers := [];
    if routes.twins && twin.Some? { answers := answers + [Named(Twins, twin.value)]; }
    if routes.folder && folder.Some? { answers := answers + [Named(Folder, folder.value)]; }
  }

  /** The routes that need no network are all asked, so that their answers can be compared. */
  method AskOffline(x: Lexicon, records: seq<Record>, index: Buckets<string, Twin>, sizes: map<string, nat>,
                    routes: Routes, tolerance: real, i: nat)
    returns (answers: seq<Named>)
    requires i < |records|
    requires forall t :: (if t in index.items then index.items[t] else []) == TwinsFor(x, records, t)
    ensures answers == Offline(x, records, sizes, routes, tolerance, i)
  {
    var title := x.tidy(records[i].title);
    var twins := if title in index.items then index.items[title] else [];
    assert twins == TwinsFor(x, records, title);
    answers := Assemble(routes, TwinAnswer(x, twins, records[i], ArtistOf(records[i]), tolerance),
                        FolderAnswer(x, records, sizes, i));
  }

  /** MusicBrainz, only where the offline routes are silent and the budget allows. */
  method AskRemote(x: Lexicon, offline: seq<Named>, routes: Routes, reply: Reply, budget: nat, lookups: nat)
    returns (answers: seq<Named>, spent: nat)
    ensures var asks := offline == [] && routes.musicBrainz && !(budget > 0 && lookups >= budget);
      && answers == (if asks then Remote(Winner(x, reply.timed)) else offline)
      && spent == lookups + if asks && reply.requested then 1 else 0
  {
    answers, spent := offline, lookups;
    if offline == [] && routes.musicBrainz && !(budget > 0 && lookups >= budget) {
      if reply.requested { spent := spent + 1; }
      var found := Winner(x, reply.timed);
      if found.Some? { answers := [Named(MusicBrainz, found.value)]; }
    }
  }

  /** One candidate: the offline answers, or perhaps MusicBrainz. */
  method DecideOne(x: Lexicon, ghost records: seq<Record>, ghost sizes: map<string, nat>, offline: seq<Named>,
                   routes: Routes, ghost tolerance: real, replies: seq<Reply>, budget: nat, lookups: nat, i: nat)
    returns (d: Decision, spent: nat)
    requires i < |records| == |replies| && Candidate(x, records[i])
    requires offline == Offline(x, records, sizes, routes, tolerance, i)
    requires lookups == Spent(x, records, sizes, routes, tolerance, replies, budget, i)
    ensures d.index == i && Sound(x, records, sizes, routes, tolerance, replies, budget, d)
    ensures spent == Spent(x, records, sizes, routes, tolerance, replies, budget, i + 1)
  {
    var answers;
    answers, spent := AskRemote(x, offline, routes, replies[i], budget, lookups);
    d := Decision(i, answers, Verdict(x, answers));
    AskedIsSound(x, records, sizes, routes, tolerance, replies, budget, d, spent);
  }

  lemma {:induction false} AskedIsSound(x: Lexicon, records: seq<Record>, sizes: map<string, nat>, routes: Routes,
                                        tolerance: real, replies: seq<Reply>, budget: nat, d: Decision, spent: nat)
    requires d.index < |records| == |replies| && Candidate(x, records[d.index]) && d.verdict == Verdict(x, d.answers)
    requires var lookups := Spent(x, records, sizes, routes, tolerance, replies, budget, d.index);
      var offline := Offline(x, records, sizes, routes, tolerance, d.index);
      var asks := offline == [] && routes.musicBrainz && !(budget > 0 && lookups >= budget);
      && d.answers == (if asks then Remote(Winner(x, replies[d.index].timed)) else offline)
      && spent == lookups + if asks && replies[d.index].requested then 1 else 0
    ensures Sound(x, records, sizes, routes, tolerance, replies, budget, d)
    ensures spent == Spent(x, records, sizes, routes, tolerance, replies, budget, d.index + 1)
  {
  }

  lemma {:induction false} DecisionKeepsDecided(x: Lexicon, records: seq<Record>, sizes: map<string, nat>,
                                                routes: Routes, tolerance: real, replies: seq<Reply>, budget: nat,
                                                decisions: seq<Decision>, n: nat, d: Decision)
    requires n < |records| == |replies| && Candidate(x, records[n]) && d.index == n
    requires Decided(x, records, sizes, routes, tolerance, replies, budget, decisions, n)
    requires Sound(x, records, sizes, routes, tolerance, replies, budget, d)
    ensures Decided(x, records, sizes, routes, tolerance, replies, budget, decisions + [d], n + 1)
  {
    DecisionKeepsCovers(x, records, decisions, n, d);
    AllSnoc(decisions, d, e => Sound(x, records, sizes, routes, tolerance, replies, budget, e));
  }

  lemma {:induction false} AllSnoc(decisions: seq<Decision>, d: Decision, sound: Decision -> bool)
    requires (forall k :: 0 <= k < |decisions| ==> sound(decisions[k])) && sound(d)
    ensures forall k :: 0 <= k < |decisions + [d]| ==> sound((decisions + [d])[k])
  {
  }

  /** The body of the loop of `decide`. */
  method Consider(x: Lexicon, records: seq<Record>, index: Buckets<string, Twin>, sizes: map<string, nat>,
                  routes: Routes, tolerance: real, replies: seq<Reply>, budget: nat,
                  decisions: seq<Decision>, lookups: nat, i: nat)
    returns (more: seq<Decision>, spent: nat)
    requires i < |records| == |replies|
    requires forall t :: (if t in index.items then index.items[t] else []) == TwinsFor(x, records, t)
    requires Decided(x, records, sizes, routes, tolerance, replies, budget, decisions, i)
    requires lookups == Spent(x, records, sizes, routes, tolerance, replies, budget, i)
    ensures Decided(x, records, sizes, routes, tolerance, replies, budget, more, i + 1)
    ensures spent == Spent(x, records, sizes, routes, tolerance, replies, budget, i + 1)
  {
    more, spent := decisions, lookups;
    if Candidate(x, records[i]) {
      var offline := AskOffline(x, records, index, sizes, routes, tolerance, i);
      var d;
      d, spent := DecideOne(x, records, sizes, offline, routes, tolerance, replies, budget, lookups, i);
      DecisionKeepsDecided(x, records, sizes, routes, tolerance, replies, budget, decisions, i, d);
      more := decisions + [d];
    } else {
      SkipKeepsCovers(x, records, decisions, i);
    }
  }

  /** The loop of `decide`, once its tables are built. */
  method DecideAll(x: Lexicon, records: seq<Record>, index: Buckets<string, Twin>, sizes: map<string, nat>,
                   routes: Routes, tolerance: real, replies: seq<Reply>, budget: nat)
    returns (decisions: seq<Decision>, lookups: nat)
    requires |replies| == |records|
    requires forall t :: (if t in index.items then index.items[t] else []) == TwinsFor(x, records, t)
    ensures Decided(x, records, sizes, routes, tolerance, replies, budget, decisions, |records|)
    ensures lookups == Spent(x, records, sizes, routes, tolerance, replies, budget, |records|)
  {
    ghost var decided := (ds: seq<Decision>, n: nat) =>
      n <= |records| && Decided(x, records, sizes, routes, tolerance, replies, budget, ds, n);
    ghost var spent := (n: nat) =>
      if n <= |records| then Spent(x, records, sizes, routes, tolerance, replies, budget, n) else 0;
    decisions, lookups := [], 0;
    for i := 0 to |records|
      invariant decided(decisions, i) && lookups == spent(i)
    {
      decisions, lookups :=
        Consider(x, records, index, sizes, routes, tolerance, replies, budget, decisions, lookups, i);
    }
  }

  /** `decide`: every candidate asked about, in order; a lookup budget of 0 is no budget. */
  method Decide(x: Lexicon, records: seq<Record>, routes: Routes, tolerance: real, replies: seq<Reply>, budget: nat)
    returns (decisions: seq<Decision>, lookups: nat, sizes: map<string, nat>)
    requires |replies| == |records|
    ensures forall k :: (if k in sizes then sizes[k] else 0) == |OnAlbum(x, records, k)|
    ensures Decided(x, records, sizes, routes, tolerance, replies, budget, decisions, |records|)
    ensures lookups == Spent(x, records, sizes, routes, tolerance, replies, budget, |records|)
    ensures budget > 0 ==> lookups <= budget
  {
    var index := BuildTwins(x, records);
    sizes := BuildAlbumSizes(x, records);
    decisions, lookups := DecideAll(x, records, index, sizes, routes, tolerance, replies, budget);
  }

  // ---- what every decision keeps ----

  lemma {:induction false} OneOfBoth(routes: Routes, twin: Option<Answer>, folder: Option<Answer>, n: nat)
    requires n < |Both(routes, twin, folder)|
    ensures var a := Both(routes, twin, folder)[n];
      || (a.route == Twins && twin == Some(a.answer))
      || (a.route == Folder && routes.folder && folder == Some(a.answer))
  {
  }

  lemma {:induction false} OfflineIsWon(x: Lexicon, records: seq<Record>, sizes: map<string, nat>, routes: Routes,
                                        tolerance: real, i: nat, n: nat)
    requires i < |records| && n < |Offline(x, records, sizes, routes, tolerance, i)|
    ensures var a := Offline(x, records, sizes, routes, tolerance, i)[n];
      && Winner(x, a.answer.seen) == Some(a.answer)
      && (a.route == Folder ==> FolderAnswer(x, records, sizes, i) == Some(a.answer))
      && (a.route == Twins || a.route == Folder)
  {
    var twin, folder := TwinOf(x, records, tolerance, i), FolderAnswer(x, records, sizes, i);
    TwinIsWon(x, records, tolerance, i);
    FolderIsWon(x, records, sizes, i);
    OneOfBoth(routes, twin, folder, n);
  }

  lemma {:induction false} TwinIsWon(x: Lexicon, records: seq<Record>, tolerance: real, i: nat)
    requires i < |records|
    ensures var twin := TwinOf(x, records, tolerance, i);
      twin.Some? ==> Winner(x, twin.value.seen) == twin
  {
  }

  lemma {:induction false} FolderIsWon(x: Lexicon, records: seq<Record>, sizes: map<string, nat>, i: nat)
    requires i < |records|
    ensures var folder := FolderAnswer(x, records, sizes, i);
      folder.Some? ==> Winner(x, folder.value.seen) == folder
  {
  }

  /** A fill: everything that any answering route saw names the one album identity that is written. */
  lemma {:induction false} EvidenceIsOneIdentity(x: Lexicon, records: seq<Record>, sizes: map<string, nat>,
                                                 routes: Routes, tolerance: real, replies: seq<Reply>, budget: nat,
                                                 d: Decision, n: nat, s: string)
    requires Sound(x, records, sizes, routes, tolerance, replies, budget, d) && d.verdict.Some?
    requires n < |d.answers| && s in d.answers[n].answer.seen
    ensures x.key(s) == x.key(d.verdict.value.answer.album)
  {
    if Offline(x, records, sizes, routes, tolerance, d.index) != [] {
      OfflineIsWon(x, records, sizes, routes, tolerance, d.index, n);
    }
    assert x.key(d.answers[n].answer.album) == x.key(d.answers[0].answer.album);
  }

  /** The paths the folder route fills in one folder. */
  function FolderFills(records: seq<Record>, decisions: seq<Decision>, folder: string): set<nat>
  {
    set d: nat | d < |decisions| && decisions[d].verdict.Some? && decisions[d].verdict.value.route == Folder
                 && decisions[d].index < |records| && records[decisions[d].index].folder == folder
      :: decisions[d].index
  }

  function UntaggedIn(x: Lexicon, records: seq<Record>, folder: string): set<nat> {
    set j: nat | j < |records| && records[j].folder == folder && Untagged(x, records[j])
  }

  /** A folder answer counts every untagged file of the folder, its own included. */
  lemma {:induction false} FolderCountsAll(x: Lexicon, records: seq<Record>, i: nat)
    requires i < |records| && Untagged(x, records[i])
    ensures |UntaggedIn(x, records, records[i].folder)| == 1 + |UntaggedBeside(x, records, i)|
  {
    assert UntaggedIn(x, records, records[i].folder) == UntaggedBeside(x, records, i) + {i};
  }

  /** The folder route never adds more files from one folder to an album than the library already tags on it. */
  lemma {:induction false} FolderNeverOutgrows(x: Lexicon, records: seq<Record>, sizes: map<string, nat>,
                                               routes: Routes, tolerance: real, replies: seq<Reply>, budget: nat,
                                               decisions: seq<Decision>, d: nat)
    requires |records| == |replies| && Decided(x, records, sizes, routes, tolerance, replies, budget, decisions,
      |records|)
    requires forall k :: (if k in sizes then sizes[k] else 0) == |OnAlbum(x, records, k)|
    requires d < |decisions| && decisions[d].verdict.Some? && decisions[d].verdict.value.route == Folder
    ensures var i := decisions[d].index;
      i < |records| &&
      |FolderFills(records, decisions, records[i].folder)|
        <= |OnAlbum(x, records, x.key(decisions[d].verdict.value.answer.album))|
  {
    var i := decisions[d].index;
    var folder := records[i].folder;
    var offline := Offline(x, records, sizes, routes, tolerance, i);
    assert Sound(x, records, sizes, routes, tolerance, replies, budget, decisions[d]);
    assert decisions[d].answers == offline;
    OfflineIsWon(x, records, sizes, routes, tolerance, i, 0);
    FolderCountsAll(x, records, i);
    FillsAreUntagged(x, records, sizes, routes, tolerance, replies, budget, decisions, folder);
    Subset(FolderFills(records, decisions, folder), UntaggedIn(x, records, folder));
  }

  lemma {:induction false} FillsAreUntagged(x: Lexicon, records: seq<Record>, sizes: map<string, nat>, routes: Routes,
                                            tolerance: real, replies: seq<Reply>, budget: nat,
                                            decisions: seq<Decision>, folder: string)
    requires |records| == |replies| && Decided(x, records, sizes, routes, tolerance, replies, budget, decisions,
      |records|)
    ensures FolderFills(records, decisions, folder) <= UntaggedIn(x, records, folder)
  {
    forall i | i in FolderFills(records, decisions, folder) ensures i in UntaggedIn(x, records, folder) {
      var d: nat :| d < |decisions| && decisions[d].index == i && records[i].folder == folder;
      assert Candidate(x, records[i]);
    }
  }

  lemma {:induction false} Subset(a: set<nat>, b: set<nat>)
    requires a <= b
    ensures |a| <= |b|
  {
    var rest := b - a;
    assert b == a + rest;
  }

  /** An offline fill never writes a placeholder; a MusicBrainz answer is not held to that. */
  lemma {:induction false} OfflineFillsAreNames(x: Lexicon, records: seq<Record>, sizes: map<string, nat>,
                                                routes: Routes, tolerance: real, i: nat, n: nat)
    requires i < |records| && n < |Offline(x, records, sizes, routes, tolerance, i)|
    ensures !x.placeholder(x.key(Offline(x, records, sizes, routes, tolerance, i)[n].answer.album))
  {
    TwinIsName(x, records, tolerance, i);
    FolderIsName(x, records, sizes, i);
    OneOfBoth(routes, TwinOf(x, records, tolerance, i), FolderAnswer(x, records, sizes, i), n);
  }

  lemma {:induction false} TwinIsName(x: Lexicon, records: seq<Record>, tolerance: real, i: nat)
    requires i < |records|
    ensures var twin := TwinOf(x, records, tolerance, i); twin.Some? ==> !x.placeholder(x.key(twin.value.album))
  {
    var r := records[i];
    var twins := TwinsFor(x, records, x.tidy(r.title));
    TwinsAreNames(x, records, x.tidy(r.title));
    MatchesAreNames(x, twins, r, ArtistOf(r), tolerance);
  }

  lemma {:induction false} FolderIsName(x: Lexicon, records: seq<Record>, sizes: map<string, nat>, i: nat)
    requires i < |records|
    ensures var folder := FolderAnswer(x, records, sizes, i);
      folder.Some? ==> !x.placeholder(x.key(folder.value.album))
  {
    SiblingsAreNames(x, records, i, |records|);
  }

  predicate Names(x: Lexicon, strings: seq<string>) {
    forall s :: s in strings ==> !x.placeholder(x.key(s))
  }

  lemma {:induction false} TwinsAreNames(x: Lexicon, records: seq<Record>, title: string)
    ensures forall t :: t in TwinsFor(x, records, title) ==> !x.placeholder(x.key(t.album))
  {
    if records != [] { TwinsAreNames(x, records[..|records| - 1], title); }
  }

  lemma {:induction false} MatchesAreNames(x: Lexicon, twins: seq<Twin>, r: Record, artist: string, tolerance: real)
    requires forall t :: t in twins ==> !x.placeholder(x.key(t.album))
    ensures Names(x, MatchingAlbums(x, twins, r, artist, tolerance))
  {
    if twins != [] {
      assert twins[|twins| - 1] in twins;
      MatchesAreNames(x, twins[..|twins| - 1], r, artist, tolerance);
    }
  }

  lemma {:induction false} SiblingsAreNames(x: Lexicon, records: seq<Record>, i: nat, n: nat)
    requires i < |records| && n <= |records|
    ensures Names(x, TaggedBeside(x, records, i, n))
  {
    if n > 0 { SiblingsAreNames(x, records, i, n - 1); }
  }

  // ---- what the offline routes ask for ----

  /** A twin answer: every candidate spelling is that of a tagged file with the same title key, a length within
      the tolerance and an agreeing artist. */
  lemma {:induction false} TwinsAreWitnesses(x: Lexicon, records: seq<Record>, tolerance: real, i: nat, s: string)
    requires i < |records| && TwinOf(x, records, tolerance, i).Some? && s in TwinOf(x, records, tolerance, i).value.seen
    ensures exists j ::
      0 <= j < |records| && Witness(x, records[j], records[i], tolerance) && records[j].album == Some(s)
  {
    var r := records[i];
    var twins := TwinsFor(x, records, x.tidy(r.title));
    var t := MatchingTwin(x, twins, r, ArtistOf(r), tolerance, s);
    var j := TwinSource(x, records, x.tidy(r.title), t);
    assert Witness(x, records[j], r, tolerance);
  }

  ghost predicate Witness(x: Lexicon, other: Record, r: Record, tolerance: real) {
    && Tagged(x, other) && x.tidy(other.title) == x.tidy(r.title) && Close(other.length, r.length, tolerance)
    && exists a :: a in Artists(other) && x.agree(ArtistOf(r), a)
  }

  lemma {:induction false} MatchingTwin(x: Lexicon, twins: seq<Twin>, r: Record, artist: string, tolerance: real,
                                        s: string)
    returns (t: Twin)
    requires s in MatchingAlbums(x, twins, r, artist, tolerance)
    ensures t in twins && Matches(x, t, r, artist, tolerance) && t.album == s
  {
    var n := |twins| - 1;
    if s in MatchingAlbums(x, twins[..n], r, artist, tolerance) {
      t := MatchingTwin(x, twins[..n], r, artist, tolerance, s);
    } else {
      t := twins[n];
    }
  }

  lemma {:induction false} TwinSource(x: Lexicon, records: seq<Record>, title: string, t: Twin) returns (j: nat)
    requires t in TwinsFor(x, records, title)
    ensures j < |records| && CanAnswer(x, records[j]) && x.tidy(records[j].title) == title && AsTwin(records[j]) == t
  {
    var n := |records| - 1;
    if t in TwinsFor(x, records[..n], title) { j := TwinSource(x, records[..n], title, t); } else { j := n; }
  }

  /** A folder answer: two different files beside it already carry that album identity. */
  lemma {:induction false} FolderNeedsTwo(x: Lexicon, records: seq<Record>, sizes: map<string, nat>, i: nat)
    returns (j: nat, k: nat)
    requires i < |records| && FolderAnswer(x, records, sizes, i).Some?
    ensures j < k < |records| && Carries(x, records, sizes, i, j) && Carries(x, records, sizes, i, k)
  {
    j, k := FirstTwo(x, records, i, |records|);
    var strings := TaggedBeside(x, records, i, |records|);
    BesideIsSeen(x, records, i, |records|, j);
    BesideIsSeen(x, records, i, |records|, k);
  }

  ghost predicate Carries(x: Lexicon, records: seq<Record>, sizes: map<string, nat>, i: nat, j: nat)
    requires i < |records| && j < |records| && FolderAnswer(x, records, sizes, i).Some?
  {
    && Sibling(records, i, j) && Tagged(x, records[j])
    && x.key(records[j].album.value) == x.key(FolderAnswer(x, records, sizes, i).value.album)
  }

  lemma {:induction false} BesideIsSeen(x: Lexicon, records: seq<Record>, i: nat, n: nat, j: nat)
    requires i < |records| && j < n <= |records| && Sibling(records, i, j) && Tagged(x, records[j])
    ensures records[j].album.value in TaggedBeside(x, records, i, n)
  {
    if j < n - 1 { BesideIsSeen(x, records, i, n - 1, j); }
  }

  lemma {:induction false} FirstOne(x: Lexicon, records: seq<Record>, i: nat, n: nat) returns (j: nat)
    requires i < |records| && n <= |records| && |TaggedBeside(x, records, i, n)| >= 1
    ensures j < n && Sibling(records, i, j) && Tagged(x, records[j])
  {
    if Sibling(records, i, n - 1) && Tagged(x, records[n - 1]) {
      j := n - 1;
    } else {
      j := FirstOne(x, records, i, n - 1);
    }
  }

  lemma {:induction false} FirstTwo(x: Lexicon, records: seq<Record>, i: nat, n: nat) returns (j: nat, k: nat)
    requires i < |records| && n <= |records| && |TaggedBeside(x, records, i, n)| >= 2
    ensures j < k < n && Sibling(records, i, j) && Tagged(x, records[j]) && Sibling(records, i, k) &&
      Tagged(x, records[k])
  {
    if Sibling(records, i, n - 1) && Tagged(x, records[n - 1]) {
      j := FirstOne(x, records, i, n - 1);
      k := n - 1;
    } else {
      j, k := FirstTwo(x, records, i, n - 1);
    }
  }
}
