/** What the album fill's decisions come to, read off the records. */
module Fills {
  import opened Basics
  import opened AlbumFills

  // ---- who is asked about, and who may answer ----

  /** Readable, without an album name, below an artist's directory, with a title and a length. */
  ghost predicate Wanting(x: Lexicon, r: Record) {
    && !r.error && (r.album == None || x.placeholder(x.key(r.album.value)))
    && (exists top :: r.top == Some(top) && x.trusted(top))
    && r.title != "" && !x.untitled(x.tidy(r.title)) && r.length != 0.0
  }

  /** The name a file asks with: its artist tag, or else its artist's directory. */
  ghost predicate AsksAs(r: Record, artist: string) {
    if r.artist == None || r.artist == Some("") then r.top == Some(artist) || (r.top == None && artist == "")
    else r.artist == Some(artist)
  }

  ghost predicate Credits(r: Record, artist: string) {
    artist != "" && (r.artist == Some(artist) || r.albumArtist == Some(artist))
  }

  /** Another file answers: same title key, a real album, a length at most the tolerance away, an agreeing artist. */
  ghost predicate Twinned(x: Lexicon, other: Record, r: Record, tolerance: real) {
    && !other.error && (exists album :: other.album == Some(album) && !x.placeholder(x.key(album)))
    && other.title != "" && !x.untitled(x.tidy(other.title)) && x.tidy(other.title) == x.tidy(r.title)
    && other.length != 0.0 && other.length <= r.length + tolerance && r.length <= other.length + tolerance
    && exists a, b :: AsksAs(r, a) && Credits(other, b) && x.agree(a, b)
  }

  /** Exactly the files that want an album get a decision. */
  lemma {:induction false} WantingAreDecided(x: Lexicon, records: seq<Record>, sizes: map<string, nat>, routes: Routes,
                                             tolerance: real, replies: seq<Reply>, budget: nat,
                                             decisions: seq<Decision>, i: nat)
    requires i < |records| == |replies|
    requires Decided(x, records, sizes, routes, tolerance, replies, budget, decisions, |records|)
    ensures Wanting(x, records[i]) <==> exists d :: 0 <= d < |decisions| && decisions[d].index == i
  {
    CandidateWants(x, records[i]);
  }

  lemma {:induction false} CandidateWants(x: Lexicon, r: Record)
    ensures Candidate(x, r) <==> Wanting(x, r)
  {
  }

  // ---- the twin answer ----

  /** The files that answer for the i-th are, in order, those the spellings come from. */
  ghost predicate ComeFrom(x: Lexicon, records: seq<Record>, r: Record, tolerance: real, n: nat, strings: seq<string>,
                           js: seq<nat>)
    requires n <= |records|
  {
    && |js| == |strings|
    && (forall k :: 0 <= k < |js| ==>
          js[k] < n && Twinned(x, records[js[k]], r, tolerance) && records[js[k]].album == Some(strings[k]))
    && (forall k, l :: 0 <= k < l < |js| ==> js[k] < js[l])
    && (forall j: nat :: j < n && Twinned(x, records[j], r, tolerance) ==> j in js)
  }

  function Spellings(x: Lexicon, records: seq<Record>, r: Record, tolerance: real, n: nat): seq<string>
    requires n <= |records|
  {
    MatchingAlbums(x, TwinsFor(x, records[..n], x.tidy(r.title)), r, ArtistOf(r), tolerance)
  }

  lemma {:induction false} SpellingsComeFrom(x: Lexicon, records: seq<Record>, r: Record, tolerance: real, n: nat)
    returns (js: seq<nat>)
    requires n <= |records|
    ensures ComeFrom(x, records, r, tolerance, n, Spellings(x, records, r, tolerance, n), js)
    decreases n
  {
    if n == 0 {
      js := [];
    } else {
      js := SpellingsComeFrom(x, records, r, tolerance, n - 1);
      SpellingsStep(x, records, r, tolerance, n - 1, js);
      if Twinned(x, records[n - 1], r, tolerance) { js := js + [n - 1]; }
    }
  }

  lemma {:induction false} SpellingsStep(x: Lexicon, records: seq<Record>, r: Record, tolerance: real, n: nat,
                                         js: seq<nat>)
    requires n < |records| && ComeFrom(x, records, r, tolerance, n, Spellings(x, records, r, tolerance, n), js)
    ensures ComeFrom(x, records, r, tolerance, n + 1, Spellings(x, records, r, tolerance, n + 1),
                     if Twinned(x, records[n], r, tolerance) then js + [n] else js)
  {
    SpellingsNext(x, records, r, tolerance, n);
    ComesNext(x, records, r, tolerance, n, Spellings(x, records, r, tolerance, n), js);
  }

  lemma {:induction false} ComesNext(x: Lexicon, records: seq<Record>, r: Record, tolerance: real, n: nat,
                                     strings: seq<string>, js: seq<nat>)
    requires n < |records| && ComeFrom(x, records, r, tolerance, n, strings, js)
    ensures if Twinned(x, records[n], r, tolerance)
            then ComeFrom(x, records, r, tolerance, n + 1, strings + [records[n].album.value], js + [n])
            else ComeFrom(x, records, r, tolerance, n + 1, strings + [], js)
  {
  }

  lemma {:induction false} SpellingsNext(x: Lexicon, records: seq<Record>, r: Record, tolerance: real, n: nat)
    requires n < |records|
    ensures Spellings(x, records, r, tolerance, n + 1) == Spellings(x, records, r, tolerance, n) +
      if Twinned(x, records[n], r, tolerance) then [records[n].album.value] else []
  {
    var title, other := x.tidy(r.title), records[n];
    TwinsForNext(x, records, n, title);
    assert Twinned(x, other, r, tolerance) ==> CanAnswer(x, other) && x.tidy(other.title) == title;
    var before := TwinsFor(x, records[..n], title);
    if CanAnswer(x, other) && x.tidy(other.title) == title {
      MatchingNext(x, before, AsTwin(other), r, ArtistOf(r), tolerance);
      MatchesIff(x, other, r, tolerance);
    } else {
      assert before + [] == before;
    }
  }

  lemma {:induction false} MatchingNext(x: Lexicon, twins: seq<Twin>, t: Twin, r: Record, artist: string,
                                        tolerance: real)
    ensures MatchingAlbums(x, twins + [t], r, artist, tolerance) ==
      MatchingAlbums(x, twins, r, artist, tolerance) + if Matches(x, t, r, artist, tolerance) then [t.album] else []
  {
    assert (twins + [t])[..|twins|] == twins;
  }

  lemma {:induction false} MatchesIff(x: Lexicon, other: Record, r: Record, tolerance: real)
    requires CanAnswer(x, other) && x.tidy(other.title) == x.tidy(r.title)
    ensures Matches(x, AsTwin(other), r, ArtistOf(r), tolerance) <==> Twinned(x, other, r, tolerance)
  {
    var artists := Artists(other);
    assert AsksAs(r, ArtistOf(r));
    if i :| 0 <= i < |artists| && artists[i] != "" && x.agree(ArtistOf(r), artists[i]) {
      assert Credits(other, artists[i]);
    }
    if a, b :| AsksAs(r, a) && Credits(other, b) && x.agree(a, b) {
      assert a == ArtistOf(r);
      if other.artist == Some(b) { assert artists[0] == b; } else { assert artists[|artists| - 1] == b; }
    }
  }

  /** The twin route answers a file exactly when some file answers for it and all that do carry one album identity; its
      answer is the most common of their spellings, the one that comes first where several are. */
  lemma {:induction false} TwinIff(x: Lexicon, records: seq<Record>, tolerance: real, i: nat) returns (js: seq<nat>)
    requires i < |records| && Wanting(x, records[i])
    ensures forall k, l :: 0 <= k < l < |js| ==> js[k] < js[l]
    ensures forall j: nat :: j in js <==> j < |records| && Twinned(x, records[j], records[i], tolerance)
    ensures forall k :: 0 <= k < |js| ==> js[k] < |records| && records[js[k]].album.Some?
    ensures var twin := TwinOf(x, records, tolerance, i);
      var spellings := seq(|js|, k requires 0 <= k < |js| => records[js[k]].album.value);
      && (twin.Some? <==>
            && js != []
            && forall k :: 0 <= k < |js| ==> x.key(spellings[k]) == x.key(spellings[0]))
      && (twin.Some? ==>
            && twin.value.seen == spellings
            && exists k: nat :: Leads(spellings, k) && twin.value.album == spellings[k])
  {
    var r := records[i];
    assert records[..|records|] == records;
    js := SpellingsComeFrom(x, records, r, tolerance, |records|);
    var strings := Spellings(x, records, r, tolerance, |records|);
    var spellings := seq(|js|, k requires 0 <= k < |js| => records[js[k]].album.value);
    assert spellings == strings;
    TwinIsWinner(x, records, tolerance, i);
    if strings != [] { MostCommonLeads(strings); }
  }

  lemma {:induction false} TwinIsWinner(x: Lexicon, records: seq<Record>, tolerance: real, i: nat)
    requires i < |records| && Wanting(x, records[i])
    ensures TwinOf(x, records, tolerance, i) ==
      Winner(x, Spellings(x, records, records[i], tolerance, |records|))
  {
    assert records[..|records|] == records;
  }

  // ---- the verdict ----

  /** A file takes the twin answer, or else the folder's, unless both came and name different albums; only where
      neither came, and within the budget, that of MusicBrainz. */
  lemma {:induction false} VerdictByRoute(x: Lexicon, records: seq<Record>, sizes: map<string, nat>, routes: Routes,
                                          tolerance: real, replies: seq<Reply>, budget: nat, d: Decision)
    requires Sound(x, records, sizes, routes, tolerance, replies, budget, d) && Wanting(x, records[d.index])
    ensures var twin, folder := TwinOf(x, records, tolerance, d.index), FolderAnswer(x, records, sizes, d.index);
      var timed := replies[d.index].timed;
      var spent := Spent(x, records, sizes, routes, tolerance, replies, budget, d.index);
      if routes.twins && twin.Some? then
        if routes.folder && folder.Some? && x.key(folder.value.album) != x.key(twin.value.album)
        then d.verdict == None else d.verdict == Some(Named(Twins, twin.value))
      else if routes.folder && folder.Some? then d.verdict == Some(Named(Folder, folder.value))
      else
        && (d.verdict.Some? <==>
              && routes.musicBrainz && (budget == 0 || spent < budget)
              && timed != [] && forall k :: 0 <= k < |timed| ==> x.key(timed[k]) == x.key(timed[0]))
        && (d.verdict.Some? ==>
              && d.verdict.value.route == MusicBrainz
              && exists k: nat :: Leads(timed, k) && d.verdict.value.answer.album == timed[k])
  {
    var twin, folder := TwinOf(x, records, tolerance, d.index), FolderAnswer(x, records, sizes, d.index);
    CandidateWants(x, records[d.index]);
    var timed := replies[d.index].timed;
    if timed != [] { MostCommonLeads(timed); }
    VerdictOfBoth(x, routes, twin, folder);
    VerdictOfRemote(x, Winner(x, timed));
  }

  lemma {:induction false} VerdictOfBoth(x: Lexicon, routes: Routes, twin: Option<Answer>, folder: Option<Answer>)
    ensures var answers := Both(routes, twin, folder);
      && (answers == [] <==> !(routes.twins && twin.Some?) && !(routes.folder && folder.Some?))
      && Verdict(x, answers) ==
         if routes.twins && twin.Some? then
           if routes.folder && folder.Some? && x.key(folder.value.album) != x.key(twin.value.album) then None
           else Some(Named(Twins, twin.value))
         else if routes.folder && folder.Some? then Some(Named(Folder, folder.value)) else None
  {
    var answers := Both(routes, twin, folder);
    if |answers| == 2 {
      assert answers[1].answer == folder.value;
    }
  }

  lemma {:induction false} VerdictOfRemote(x: Lexicon, won: Option<Answer>)
    ensures Verdict(x, Remote(won)) == if won.Some? then Some(Named(MusicBrainz, won.value)) else None
  {
  }

  // ---- the lookup budget ----

  /** A file that costs a request if it is asked about: the offline routes are silent, and the cache has nothing. */
  ghost predicate Costs(x: Lexicon, records: seq<Record>, sizes: map<string, nat>, routes: Routes, tolerance: real,
                        replies: seq<Reply>, i: nat)
    requires i < |records| == |replies|
  {
    && Wanting(x, records[i]) && routes.musicBrainz && replies[i].requested
    && !(routes.twins && TwinOf(x, records, tolerance, i).Some?)
    && !(routes.folder && FolderAnswer(x, records, sizes, i).Some?)
  }

  ghost function Costly(x: Lexicon, records: seq<Record>, sizes: map<string, nat>, routes: Routes, tolerance: real,
                        replies: seq<Reply>, n: nat): set<nat>
    requires n <= |records| == |replies|
  {
    set i: nat | i < n && Costs(x, records, sizes, routes, tolerance, replies, i)
  }

  /** The requests sent for the first n records: one for every such file, up to the budget. */
  ghost predicate Metered(x: Lexicon, records: seq<Record>, sizes: map<string, nat>, routes: Routes, tolerance: real,
                          replies: seq<Reply>, budget: nat, n: nat)
    requires n <= |records| == |replies|
  {
    var costly := |Costly(x, records, sizes, routes, tolerance, replies, n)|;
    Spent(x, records, sizes, routes, tolerance, replies, budget, n) ==
      if budget == 0 || costly <= budget then costly else budget
  }

  lemma {:induction false} SpentCounts(x: Lexicon, records: seq<Record>, sizes: map<string, nat>, routes: Routes,
                                       tolerance: real, replies: seq<Reply>, budget: nat, n: nat)
    requires n <= |records| == |replies|
    ensures Metered(x, records, sizes, routes, tolerance, replies, budget, n)
  {
    var metered := (k: nat) =>
      k <= |records| && Metered(x, records, sizes, routes, tolerance, replies, budget, k);
    MeteredNone(x, records, sizes, routes, tolerance, replies, budget);
    forall k: nat | k < n && metered(k) ensures metered(k + 1) {
      MeteredNext(x, records, sizes, routes, tolerance, replies, budget, k);
    }
    Climb(metered, n);
  }

  lemma {:induction false} Climb(holds: nat -> bool, n: nat)
    requires holds(0) && forall k: nat :: k < n && holds(k) ==> holds(k + 1)
    ensures holds(n)
  {
    if n > 0 { Climb(holds, n - 1); }
  }

  lemma {:induction false} MeteredNone(x: Lexicon, records: seq<Record>, sizes: map<string, nat>, routes: Routes,
                                       tolerance: real, replies: seq<Reply>, budget: nat)
    requires |records| == |replies|
    ensures Metered(x, records, sizes, routes, tolerance, replies, budget, 0)
  {
    assert Costly(x, records, sizes, routes, tolerance, replies, 0) == {};
  }

  lemma {:induction false} MeteredNext(x: Lexicon, records: seq<Record>, sizes: map<string, nat>, routes: Routes,
                                       tolerance: real, replies: seq<Reply>, budget: nat, n: nat)
    requires n < |records| == |replies| && Metered(x, records, sizes, routes, tolerance, replies, budget, n)
    ensures Metered(x, records, sizes, routes, tolerance, replies, budget, n + 1)
  {
    CostlyNext(x, records, sizes, routes, tolerance, replies, n);
    SpentNext(x, records, sizes, routes, tolerance, replies, budget, n);
  }

  lemma {:induction false} SpentNext(x: Lexicon, records: seq<Record>, sizes: map<string, nat>, routes: Routes,
                                     tolerance: real, replies: seq<Reply>, budget: nat, n: nat)
    requires n < |records| == |replies|
    ensures var before := Spent(x, records, sizes, routes, tolerance, replies, budget, n);
      Spent(x, records, sizes, routes, tolerance, replies, budget, n + 1) == before +
        if Costs(x, records, sizes, routes, tolerance, replies, n) && (budget == 0 || before < budget) then 1 else 0
  {
    ConsultsIff(x, records, sizes, routes, tolerance, replies, budget,
                Spent(x, records, sizes, routes, tolerance, replies, budget, n), n);
  }

  lemma {:induction false} CostlyNext(x: Lexicon, records: seq<Record>, sizes: map<string, nat>, routes: Routes,
                                      tolerance: real, replies: seq<Reply>, n: nat)
    requires n < |records| == |replies|
    ensures |Costly(x, records, sizes, routes, tolerance, replies, n + 1)| ==
      |Costly(x, records, sizes, routes, tolerance, replies, n)| +
      if Costs(x, records, sizes, routes, tolerance, replies, n) then 1 else 0
  {
    var before := Costly(x, records, sizes, routes, tolerance, replies, n);
    var after := Costly(x, records, sizes, routes, tolerance, replies, n + 1);
    assert after == before + if n in after then {n} else {};
  }

  lemma {:induction false} ConsultsIff(x: Lexicon, records: seq<Record>, sizes: map<string, nat>, routes: Routes,
                                       tolerance: real, replies: seq<Reply>, budget: nat, spent: nat, i: nat)
    requires i < |records| == |replies|
    ensures Consults(x, records, sizes, routes, tolerance, budget, spent, i) && replies[i].requested <==>
      Costs(x, records, sizes, routes, tolerance, replies, i) && (budget == 0 || spent < budget)
  {
    CandidateWants(x, records[i]);
    VerdictOfBoth(x, routes, TwinOf(x, records, tolerance, i), FolderAnswer(x, records, sizes, i));
  }
}
