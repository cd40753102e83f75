/** Collision-free naming inside one directory whose file system folds names. */
module Names {
  import opened Basics
  import opened Paths

  const COMPONENT_LIMIT := 255   // UTF-16 units in one exFAT component
  const LAST_COUNTER := 10_000   // the counter value at which unique() gives up

  /** The identity of a name on a folding file system: NFKC and case folding, kept abstract. */
  type Key = string -> string

  /** Folding never confuses two different numbers in the suffix, whatever surrounds them. */
  ghost predicate KeepsSuffix(key: Key) {
    forall a: string, b: string, m: nat, n: nat, tail: string ::
      m != n ==> key(a + Mid(m) + tail) != key(b + Mid(n) + tail)
  }

  function Utf16Len(s: string): (n: nat) {
    if s == "" then 0
    else Utf16Len(s[..|s| - 1]) + if s[|s| - 1] as int >= 0x1_0000 then 2 else 1
  }

  function Digit(d: nat): char
    requires d < 10
  {
    '0' + d as char
  }

  function Decimal(n: nat): (s: string)
    ensures s != "" && forall i :: 0 <= i < |s| ==> '0' <= s[i] <= '9'
  {
    if n < 10 then [Digit(n)] else Decimal(n / 10) + [Digit(n % 10)]
  }

  function Mid(n: nat): string { " (" + Decimal(n) + ")" }

  /** str.rpartition('.'), with a missing dot or an empty stem read as "no extension". */
  datatype Parts = Parts(stem: string, dot: bool, ext: string)

  function LastDot(s: string): (i: int)
    ensures -1 <= i < |s| && (i >= 0 ==> s[i] == '.')
  {
    if s == "" then -1 else if s[|s| - 1] == '.' then |s| - 1 else LastDot(s[..|s| - 1])
  }

  function Split(name: string): Parts {
    var i := LastDot(name);
    if i <= 0 then Parts(name, false, "") else Parts(name[..i], true, name[i + 1..])
  }

  /** What is left for the stem once the suffix and the extension have their place. */
  function Room(p: Parts, n: nat): int {
    COMPONENT_LIMIT - Utf16Len(p.ext) - Utf16Len(Mid(n)) - if p.dot then 1 else 0
  }

  function Tail(p: Parts): string { (if p.dot then "." else "") + p.ext }

  function KeptStem(p: Parts, n: nat): string {
    p.stem[..Min(|p.stem|, Max(1, Room(p, n)))]
  }

  function Numbered(candidate: Component, n: nat): (name: Component) {
    var p := Split(candidate);
    var name := KeptStem(p, n) + Mid(n) + Tail(p);
    assert '/' !in Tail(p) && '/' !in p.stem;
    assert '/' !in Mid(n) && Mid(n) != "";
    name
  }

  /** The names tried, in order: the candidate itself, then " (2)", " (3)", ... */
  function Attempts(candidate: Component): nat -> Component {
    i => if i == 0 then candidate else Numbered(candidate, i + 1)
  }

  const LAST_ATTEMPT: nat := LAST_COUNTER - 2

  /** The first of the names tried from position i on whose key is unclaimed. */
  function FirstFree(claimed: set<string>, key: Key, tries: nat -> Component, i: nat): Option<Component>
    decreases LAST_ATTEMPT + 1 - i, claimed
  {
    if i > LAST_ATTEMPT then None
    else if key(tries(i)) !in claimed then Some(tries(i))
    else FirstFree(claimed, key, tries, i + 1)
  }

  function UniqueName(claimed: set<string>, key: Key, candidate: Component): Option<Component> {
    FirstFree(claimed, key, Attempts(candidate), 0)
  }

  /** `unique`: the first attempt whose key is unclaimed, which it then claims. */
  method Unique(seen: map<string, string>, key: Key, candidate: Component)
    returns (name: Option<Component>, claimed: map<string, string>)
    ensures name == UniqueName(seen.Keys, key, candidate)
    ensures claimed == if name.Some? then seen[key(name.value) := candidate] else seen
  {
    ghost var tries := Attempts(candidate);
    var base: Component, n: nat := candidate, 2;
    while key(base) in seen
      invariant 2 <= n <= LAST_COUNTER && base == tries(n - 2)
      invariant UniqueName(seen.Keys, key, candidate) == FirstFree(seen.Keys, key, tries, n - 2)
      decreases LAST_COUNTER - n
    {
      base := Numbered(candidate, n);
      n := n + 1;
      if n > LAST_COUNTER {
        return None, seen;
      }
    }
    return Some(base), seen[key(base) := candidate];
  }

  /** What a returned name is: an attempt, unclaimed, with every earlier attempt claimed. */
  lemma {:induction false} FirstFreeIsFree(claimed: set<string>, key: Key, tries: nat -> Component, i: nat)
    requires i <= LAST_ATTEMPT + 1
    ensures var r := FirstFree(claimed, key, tries, i);
      if r.Some?
      then key(r.value) !in claimed &&
           exists k :: i <= k <= LAST_ATTEMPT && r.value == tries(k) &&
                       forall j :: i <= j < k ==> key(tries(j)) in claimed
      else forall j :: i <= j <= LAST_ATTEMPT ==> key(tries(j)) in claimed
    decreases LAST_ATTEMPT + 1 - i
  {
    if i <= LAST_ATTEMPT && key(tries(i)) in claimed {
      FirstFreeIsFree(claimed, key, tries, i + 1);
    }
  }

  ghost function TriedKeys(key: Key, tries: nat -> Component, k: nat): set<string> {
    if k == 0 then {} else TriedKeys(key, tries, k - 1) + {key(tries(k))}
  }

  lemma {:induction false} TriedKeysMembers(key: Key, tries: nat -> Component, k: nat, x: string)
    ensures x in TriedKeys(key, tries, k) <==> exists i :: 1 <= i <= k && x == key(tries(i))
  {
    if k > 0 { TriedKeysMembers(key, tries, k - 1, x); }
  }

  lemma {:induction false} TriedKeysDistinct(key: Key, tries: nat -> Component, k: nat)
    requires forall i, j :: 1 <= i < j ==> key(tries(i)) != key(tries(j))
    ensures |TriedKeys(key, tries, k)| == k
  {
    if k > 0 {
      TriedKeysDistinct(key, tries, k - 1);
      TriedKeysMembers(key, tries, k - 1, key(tries(k)));
    }
  }

  lemma {:induction false} NumbersDiffer(key: Key, p: Parts, i: nat, j: nat)
    requires KeepsSuffix(key) && 2 <= i < j
    ensures key(KeptStem(p, i) + Mid(i) + Tail(p)) != key(KeptStem(p, j) + Mid(j) + Tail(p))
  {
  }

  lemma {:induction false} NumberedKeysDiffer(key: Key, candidate: Component, i: nat, j: nat)
    requires KeepsSuffix(key) && 2 <= i < j
    ensures key(Numbered(candidate, i)) != key(Numbered(candidate, j))
  {
    NumbersDiffer(key, Split(candidate), i, j);
  }

  lemma {:induction false} AttemptKeysDiffer(key: Key, candidate: Component, i: nat, j: nat)
    requires 1 <= i < j && key(Numbered(candidate, i + 1)) != key(Numbered(candidate, j + 1))
    ensures key(Attempts(candidate)(i)) != key(Attempts(candidate)(j))
  {
  }

  lemma {:induction false} SubsetSize<T>(a: set<T>, b: set<T>)
    requires a <= b
    ensures |a| <= |b|
  {
    assert b == a + (b - a);
  }

  /** Pigeonhole: the loop gives up only in a directory holding at least 9 998 names. */
  lemma {:induction false} GivesUpOnlyWhenCrowded(claimed: set<string>, key: Key, candidate: Component)
    requires KeepsSuffix(key)
    requires UniqueName(claimed, key, candidate).None?
    ensures |claimed| >= LAST_ATTEMPT == 9_998
  {
    var tries := Attempts(candidate);
    FirstFreeIsFree(claimed, key, tries, 0);
    forall i, j | 1 <= i < j ensures key(tries(i)) != key(tries(j)) {
      NumberedKeysDiffer(key, candidate, i + 1, j + 1);
      AttemptKeysDiffer(key, candidate, i, j);
    }
    TriedKeysDistinct(key, tries, LAST_ATTEMPT);
    forall x | x in TriedKeys(key, tries, LAST_ATTEMPT) ensures x in claimed {
      TriedKeysMembers(key, tries, LAST_ATTEMPT, x);
    }
    SubsetSize(TriedKeys(key, tries, LAST_ATTEMPT), claimed);
  }

  // ---- what a returned name looks like ----

  /** The number a row of digits reads as. */
  function Read(digits: string): int {
    if digits == "" then 0 else 10 * Read(digits[..|digits| - 1]) + (digits[|digits| - 1] as int - '0' as int)
  }

  /** A counter is written in decimal, without leading zeros. */
  lemma {:induction false} DecimalReads(n: nat)
    ensures Read(Decimal(n)) == n && (Decimal(n)[0] == '0' ==> n == 0)
  {
    if n >= 10 {
      DecimalReads(n / 10);
      var d := Decimal(n);
      assert d[..|d| - 1] == Decimal(n / 10) && d[0] == Decimal(n / 10)[0];
    } else {
      assert Decimal(n)[..0] == "";
    }
  }

  lemma {:induction false} LastDotOf(stem: string, ext: string)
    requires '.' !in ext
    ensures LastDot(stem + "." + ext) == |stem|
  {
    var s := stem + "." + ext;
    if ext == "" {
      assert s[|s| - 1] == '.' && |s| == |stem| + 1;
    } else {
      assert s[|s| - 1] == ext[|ext| - 1] && s[..|s| - 1] == stem + "." + ext[..|ext| - 1];
      LastDotOf(stem, ext[..|ext| - 1]);
    }
  }

  lemma {:induction false} NoLaterDot(s: string)
    requires forall k :: 1 <= k < |s| ==> s[k] != '.'
    ensures LastDot(s) <= 0
  {
    if |s| > 1 { NoLaterDot(s[..|s| - 1]); }
  }

  lemma {:induction false} SplitAtDot(stem: string, ext: string)
    requires stem != "" && '.' !in ext
    ensures Split(stem + "." + ext) == Parts(stem, true, ext)
  {
    var s := stem + "." + ext;
    LastDotOf(stem, ext);
    assert s[..|stem|] == stem && s[|stem| + 1..] == ext;
  }

  lemma {:induction false} SplitNowhere(name: string)
    requires name != "" && '.' !in name[1..]
    ensures Split(name) == Parts(name, false, "")
  {
    forall k | 1 <= k < |name| ensures name[k] != '.' { assert name[k] == name[1..][k - 1]; }
    NoLaterDot(name);
  }

  lemma {:induction false} GlueExtension(kept: string, digits: string, ext: string)
    ensures kept + (" (" + digits + ")") + ("." + ext) == kept + " (" + digits + ")." + ext
  {
  }

  lemma {:induction false} GlueNothing(kept: string, digits: string)
    ensures kept + (" (" + digits + ")") + ("" + "") == kept + " (" + digits + ")"
  {
  }

  /** The number goes before the extension, and only the stem is cut: to what the limit leaves, and not below one
      character. */
  lemma {:induction false} NumberBeforeExtension(stem: string, ext: string, candidate: Component, n: nat)
    returns (k: nat)
    requires candidate == stem + "." + ext && stem != "" && '.' !in ext
    ensures k <= |stem| && Numbered(candidate, n) == stem[..k] + " (" + Decimal(n) + ")." + ext
    ensures var room := 255 - Utf16Len(" (" + Decimal(n) + ")") - Utf16Len(ext) - 1;
      (k == |stem| || k == Max(1, room)) && (|stem| <= room ==> k == |stem|)
  {
    var p := Parts(stem, true, ext);
    SplitAtDot(stem, ext);
    k := Min(|stem|, Max(1, Room(p, n)));
    GlueExtension(KeptStem(p, n), Decimal(n), ext);
  }

  /** Without an extension it goes to the end. */
  lemma {:induction false} NumberAtEnd(candidate: Component, n: nat) returns (k: nat)
    requires '.' !in candidate[1..]
    ensures k <= |candidate| && Numbered(candidate, n) == candidate[..k] + " (" + Decimal(n) + ")"
    ensures var room := 255 - Utf16Len(" (" + Decimal(n) + ")");
      (k == |candidate| || k == Max(1, room)) && (|candidate| <= room ==> k == |candidate|)
  {
    var p := Parts(candidate, false, "");
    SplitNowhere(candidate);
    assert Utf16Len("") == 0;
    k := Min(|candidate|, Max(1, Room(p, n)));
    GlueNothing(KeptStem(p, n), Decimal(n));
  }

  /** Every number from 2 up to here gives a claimed name. */
  ghost predicate AllTaken(claimed: set<string>, key: Key, candidate: Component, n: nat) {
    forall m: nat :: 2 <= m < n ==> key(Numbered(candidate, m)) in claimed
  }

  lemma {:induction false} AttemptsAreNumbered(claimed: set<string>, key: Key, candidate: Component, k: nat)
    requires forall j :: 0 <= j < k ==> key(Attempts(candidate)(j)) in claimed
    ensures AllTaken(claimed, key, candidate, k + 1)
  {
    forall m: nat | 2 <= m < k + 1 ensures key(Numbered(candidate, m)) in claimed {
      assert Attempts(candidate)(m - 1) == Numbered(candidate, m);
    }
  }

  lemma {:induction false} FirstFreeGives(claimed: set<string>, key: Key, tries: nat -> Component, name: Component)
    returns (k: nat)
    requires FirstFree(claimed, key, tries, 0) == Some(name)
    ensures k <= LAST_ATTEMPT && name == tries(k) && key(name) !in claimed
    ensures forall j :: 0 <= j < k ==> key(tries(j)) in claimed
  {
    FirstFreeIsFree(claimed, key, tries, 0);
    k :| 0 <= k <= LAST_ATTEMPT && name == tries(k) && forall j :: 0 <= j < k ==> key(tries(j)) in claimed;
  }

  /** Any other name carries the first number whose name is unclaimed. */
  lemma {:induction false} NumberOf(claimed: set<string>, key: Key, candidate: Component, name: Component)
    returns (n: nat)
    requires UniqueName(claimed, key, candidate) == Some(name) && name != candidate
    ensures 2 <= n <= 9_999 && name == Numbered(candidate, n) && AllTaken(claimed, key, candidate, n)
    ensures key(candidate) in claimed && key(name) !in claimed
  {
    var tries := Attempts(candidate);
    var k := FirstFreeGives(claimed, key, tries, name);
    assert tries(0) == candidate;
    AttemptsAreNumbered(claimed, key, candidate, k);
    n := k + 1;
  }

  /** An unclaimed candidate is taken as it is; giving up means that every number is claimed. */
  lemma {:induction false} UniqueOtherwise(claimed: set<string>, key: Key, candidate: Component)
    ensures key(candidate) !in claimed ==> UniqueName(claimed, key, candidate) == Some(candidate)
    ensures UniqueName(claimed, key, candidate) == None ==>
      key(candidate) in claimed && AllTaken(claimed, key, candidate, 10_000)
  {
    var tries := Attempts(candidate);
    assert tries(0) == candidate;
    if key(candidate) !in claimed {
      assert FirstFree(claimed, key, tries, 0) == Some(tries(0));
    } else if UniqueName(claimed, key, candidate) == None {
      FirstFreeIsFree(claimed, key, tries, 0);
      AttemptsAreNumbered(claimed, key, candidate, LAST_ATTEMPT + 1);
    }
  }

  /** A name with an extension: whatever else is returned is its stem, cut only as far as the limit asks, a number, and
      its extension. */
  lemma {:induction false} UniqueKeepsExtension(claimed: set<string>, key: Key, stem: string, ext: string,
                                                candidate: Component, name: Component)
    returns (n: nat, k: nat)
    requires candidate == stem + "." + ext && stem != "" && '.' !in ext
    requires UniqueName(claimed, key, candidate) == Some(name) && name != candidate
    ensures 2 <= n <= 9_999 && k <= |stem| && name == stem[..k] + " (" + Decimal(n) + ")." + ext
    ensures k == |stem| || k == Max(1, 255 - Utf16Len(" (" + Decimal(n) + ")") - Utf16Len(ext) - 1)
    ensures |stem| <= 255 - Utf16Len(" (" + Decimal(n) + ")") - Utf16Len(ext) - 1 ==> k == |stem|
    ensures AllTaken(claimed, key, candidate, n)
  {
    n := NumberOf(claimed, key, candidate, name);
    k := NumberBeforeExtension(stem, ext, candidate, n);
  }

  /** A name without one, or with only a leading dot: the number comes last. */
  lemma {:induction false} UniqueNumbersAtEnd(claimed: set<string>, key: Key, candidate: Component, name: Component)
    returns (n: nat, k: nat)
    requires '.' !in candidate[1..]
    requires UniqueName(claimed, key, candidate) == Some(name) && name != candidate
    ensures 2 <= n <= 9_999 && k <= |candidate| && name == candidate[..k] + " (" + Decimal(n) + ")"
    ensures k == |candidate| || k == Max(1, 255 - Utf16Len(" (" + Decimal(n) + ")"))
    ensures |candidate| <= 255 - Utf16Len(" (" + Decimal(n) + ")") ==> k == |candidate|
    ensures AllTaken(claimed, key, candidate, n)
  {
    n := NumberOf(claimed, key, candidate, name);
    k := NumberAtEnd(candidate, n);
  }

  // ---- a folding that keeps the suffix exists ----

  function FoldChar(c: char): char {
    if 'A' <= c <= 'Z' then c - 'A' + 'a' else c
  }

  function AsciiFold(s: string): string { seq(|s|, i requires 0 <= i < |s| => FoldChar(s[i])) }

  lemma {:induction false} DecimalInjective(m: nat, n: nat)
    requires Decimal(m) == Decimal(n)
    ensures m == n
  {
    var s := Decimal(m);
    assert s[|s| - 1] == Digit(m % 10) && s[|s| - 1] == Digit(n % 10);
    if m >= 10 && n >= 10 {
      assert Decimal(m / 10) == s[..|s| - 1] && Decimal(n / 10) == s[..|s| - 1];
      DecimalInjective(m / 10, n / 10);
    }
  }

  /** Reading back from the end, the parenthesis that opens the number comes first in the shorter one. */
  lemma {:induction false} AsciiFoldKeepsSuffix()
    ensures KeepsSuffix(AsciiFold)
  {
    forall a: string, b: string, m: nat, n: nat, tail: string | m != n
      ensures AsciiFold(a + Mid(m) + tail) != AsciiFold(b + Mid(n) + tail)
    {
      if |Decimal(m)| <= |Decimal(n)| {
        FoldedSuffixesDiffer(a, b, m, n, tail);
      } else {
        FoldedSuffixesDiffer(b, a, n, m, tail);
      }
    }
  }

  lemma {:induction false} FoldAt(s: string, k: nat)
    requires k < |s|
    ensures AsciiFold(s)[k] == FoldChar(s[k])
  {
  }

  lemma {:induction false} FoldedSuffixesDiffer(a: string, b: string, m: nat, n: nat, tail: string)
    requires m != n && |Decimal(m)| <= |Decimal(n)|
    ensures AsciiFold(a + Mid(m) + tail) != AsciiFold(b + Mid(n) + tail)
  {
    var x, y := a + Mid(m) + tail, b + Mid(n) + tail;
    if |x| == |y| {
      var k := DifferingDigit(a, b, m, n, tail);
      FoldAt(x, k);
      FoldAt(y, k);
    }
  }

  /** The text of a numbered name, character by character. */
  lemma {:induction false} NumberedAt(a: string, digits: string, tail: string, i: nat)
    requires i < |digits|
    ensures var x := a + (" (" + digits + ")") + tail;
      |x| == |a| + |digits| + 3 + |tail| && x[|a| + 1] == '(' && x[|a| + 2 + i] == digits[i]
  {
    var middle := " (" + digits + ")";
    assert middle[1] == '(' && middle[2 + i] == digits[i];
  }

  /** Aligned at the end, the two texts differ where one has a digit or a parenthesis. */
  lemma {:induction false} DifferingDigit(a: string, b: string, m: nat, n: nat, tail: string) returns (k: nat)
    requires m != n && |Decimal(m)| <= |Decimal(n)|
    requires |a + Mid(m) + tail| == |b + Mid(n) + tail|
    ensures var x, y := a + Mid(m) + tail, b + Mid(n) + tail;
      k < |x| && FoldChar(x[k]) != FoldChar(y[k])
  {
    var dm, dn := Decimal(m), Decimal(n);
    if |dm| < |dn| {
      NumberedAt(a, dm, tail, 0);
      NumberedAt(b, dn, tail, |dn| - |dm| - 1);
      k := |a| + 1;
    } else {
      if dm == dn { DecimalInjective(m, n); }
      var i :| 0 <= i < |dm| && dm[i] != dn[i];
      NumberedAt(a, dm, tail, i);
      NumberedAt(b, dn, tail, i);
      k := |a| + 2 + i;
    }
  }

  // ---- does the numbered name still fit its file system? ----

  lemma {:induction false} Utf16Concat(a: string, b: string)
    ensures Utf16Len(a + b) == Utf16Len(a) + Utf16Len(b)
  {
    if b == "" {
      assert a + b == a;
    } else {
      assert (a + b)[..|a + b| - 1] == a + b[..|b| - 1];
      Utf16Concat(a, b[..|b| - 1]);
    }
  }

  /** Room is counted in UTF-16 units but the stem is cut in code points: a numbered name
      fits exactly when the kept stem needs no more units than the room it was cut to. */
  lemma {:induction false} NumberedFits(candidate: Component, n: nat)
    ensures var p := Split(candidate);
      (Utf16Len(Numbered(candidate, n)) <= COMPONENT_LIMIT) <==> (Utf16Len(KeptStem(p, n)) <= Room(p, n))
  {
    var p := Split(candidate);
    Utf16Concat(KeptStem(p, n) + Mid(n), Tail(p));
    Utf16Concat(KeptStem(p, n), Mid(n));
    Utf16Concat(if p.dot then "." else "", p.ext);
    assert Utf16Len(".") == 1;
  }

  lemma {:induction false} Utf16Uniform(s: string, wide: bool)
    requires forall i :: 0 <= i < |s| ==> (s[i] as int >= 0x1_0000 <==> wide)
    ensures Utf16Len(s) == if wide then 2 * |s| else |s|
  {
    if s != "" { Utf16Uniform(s[..|s| - 1], wide); }
  }

  lemma {:induction false} PlainStemFits(p: Parts, n: nat)
    requires forall i :: 0 <= i < |p.stem| ==> p.stem[i] as int < 0x1_0000
    ensures (Utf16Len(KeptStem(p, n)) <= Room(p, n)) <==> (Room(p, n) >= Min(|p.stem|, 1))
  {
    Utf16Uniform(KeptStem(p, n), false);
  }

  /** Stems without astral characters always fit once one unit of room is left ... */
  lemma {:induction false} BasicPlaneNumberedFits(candidate: Component, n: nat)
    requires forall i :: 0 <= i < |candidate| ==> candidate[i] as int < 0x1_0000
    ensures (Utf16Len(Numbered(candidate, n)) <= COMPONENT_LIMIT) <==>
      (Room(Split(candidate), n) >= Min(|Split(candidate).stem|, 1))
  {
    NumberedFits(candidate, n);
    PlainStemFits(Split(candidate), n);
  }

  /** ... and a stem of emoji shows the cut is wrong: a name that fits is numbered past the limit. */
  lemma {:induction false} EmojiStemOverflows()
    ensures exists c: Component ::
      Utf16Len(c) <= COMPONENT_LIMIT && Utf16Len(Numbered(c, 2)) > COMPONENT_LIMIT
  {
    var stem := seq(125, _ => '\U{1F600}');
    var c: Component := stem + ".jpg";
    var p := Split(c);
    assert LastDot(c) == 125 by {
      var d := c[..|c| - 1];
      var e := d[..|d| - 1];
      var f := e[..|e| - 1];
      assert c[128] == 'g' && d[127] == 'p' && e[126] == 'j' && f[125] == '.';
      assert LastDot(f) == 125;
      assert LastDot(e) == LastDot(f) && LastDot(d) == LastDot(e);
    }
    assert p == Parts(stem, true, "jpg") by { assert c[..125] == stem && c[126..] == "jpg"; }
    Utf16Uniform(stem, true);
    Utf16Uniform("jpg", false);
    Utf16Uniform(".jpg", false);
    Utf16Concat(stem, ".jpg");
    assert Mid(2) == " (2)";
    Utf16Uniform(Mid(2), false);
    assert Room(p, 2) == 247 && KeptStem(p, 2) == stem;
    NumberedFits(c, 2);
  }
}
