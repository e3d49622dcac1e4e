/**
  Names the contents manager makes up: incremented file names, names of copies,
  and names of checkpoint files.
 */
module Names {
  // ---------------------------------------------------------------------
  // Dots
  // ---------------------------------------------------------------------

  function LastDot(s: string): (r: int)
    ensures -1 <= r < |s|
    ensures r >= 0 ==> s[r] == '.'
    ensures forall j :: r < j < |s| ==> s[j] != '.'
  {
    if s == [] then -1 else if s[|s| - 1] == '.' then |s| - 1 else LastDot(s[..|s| - 1])
  }

  function FirstDot(s: string): (r: int)
    ensures -1 <= r < |s|
    ensures r >= 0 ==> s[r] == '.'
    ensures forall j :: 0 <= j < (if r >= 0 then r else |s|) ==> s[j] != '.'
  {
    if s == [] then -1 else if s[0] == '.' then 0
    else if FirstDot(s[1..]) < 0 then -1 else FirstDot(s[1..]) + 1
  }

  /** What follows the last dot, or all of a name without one. */
  function Extension(name: string): string {
    name[LastDot(name) + 1..]
  }

  /** Where a number goes: before the last dot of a notebook's name, before the first of any other. */
  function SplitAt(name: string): (r: nat)
    ensures r <= |name|
  {
    if Extension(name) == "ipynb" then (if LastDot(name) >= 0 then LastDot(name) else 0)
    else (if FirstDot(name) >= 0 then FirstDot(name) else |name|)
  }

  function Base(name: string): string {
    name[..SplitAt(name)]
  }

  function Suffix(name: string): string {
    name[SplitAt(name)..]
  }

  lemma SplitJoins(name: string)
    ensures Base(name) + Suffix(name) == name
    ensures '.' in name ==> Suffix(name) != [] && Suffix(name)[0] == '.'
  {
    DotAtSplit(name);
    hide SplitAt;
  }

  lemma DotAtSplit(name: string)
    ensures '.' in name ==> SplitAt(name) < |name| && name[SplitAt(name)] == '.'
  {
    hide LastDot, FirstDot, Extension;
  }

  /** A notebook's suffix is `.ipynb`; any other's is everything from the first dot on. */
  lemma SuffixIs(name: string)
    ensures Extension(name) == "ipynb" && '.' in name ==> Suffix(name) == ".ipynb"
    ensures Extension(name) == "ipynb" && '.' !in name ==> Suffix(name) == "ipynb"
    ensures Extension(name) != "ipynb" ==> '.' !in Base(name)
    ensures Extension(name) != "ipynb" && '.' !in name ==> Suffix(name) == ""
  {
    var last := LastDot(name);
    assert last >= 0 ==> name[last..] == "." + name[last + 1..];
  }

  // ---------------------------------------------------------------------
  // Numbered candidates
  // ---------------------------------------------------------------------

  function Digit(n: nat): char
    requires n < 10
  {
    ['0', '1', '2', '3', '4', '5', '6', '7', '8', '9'][n]
  }

  predicate IsDecimal(c: char) {
    '0' <= c <= '9'
  }

  function Decimal(n: nat): (s: string)
    ensures |s| > 0 && forall i :: 0 <= i < |s| ==> IsDecimal(s[i])
  {
    if n < 10 then [Digit(n)] else Decimal(n / 10) + [Digit(n % 10)]
  }

  function Insertion(insert: string, i: nat): string {
    if i == 0 then "" else insert + Decimal(i)
  }

  function Candidate(name: string, insert: string, i: nat): string {
    Base(name) + Insertion(insert, i) + Suffix(name)
  }

  lemma {:induction false} DecimalsDiffer(m: nat, n: nat)
    requires Decimal(m) == Decimal(n)
    ensures m == n
  {
    assert Decimal(m)[|Decimal(m)| - 1] == Digit(m % 10);
    assert Decimal(n)[|Decimal(n)| - 1] == Digit(n % 10);
    if m >= 10 && n >= 10 {
      assert Decimal(m / 10) == Decimal(m)[..|Decimal(m)| - 1] == Decimal(n / 10);
      DecimalsDiffer(m / 10, n / 10);
    }
  }

  /** No two candidates are the same name. */
  lemma CandidatesDiffer(name: string, insert: string, i: nat, j: nat)
    requires Candidate(name, insert, i) == Candidate(name, insert, j)
    ensures i == j
  {
    var base, suffix := Base(name), Suffix(name);
    var x, y := Insertion(insert, i), Insertion(insert, j);
    assert |base + x + suffix| == |base + y + suffix|;
    assert x == (base + x + suffix)[|base|..|base| + |x|];
    assert y == (base + y + suffix)[|base|..|base| + |y|];
    if i > 0 && j > 0 {
      assert Decimal(i) == x[|insert|..] && Decimal(j) == y[|insert|..];
      DecimalsDiffer(i, j);
    }
  }

  function Entry(name: string, path: string, insert: string, i: nat): string {
    path + "/" + Candidate(name, insert, i)
  }

  lemma EntriesDiffer(name: string, path: string, insert: string, i: nat, j: nat)
    requires Entry(name, path, insert, i) == Entry(name, path, insert, j)
    ensures i == j
  {
    var at := |path + "/"|;
    assert Candidate(name, insert, i) == Entry(name, path, insert, i)[at..];
    assert Candidate(name, insert, j) == Entry(name, path, insert, j)[at..];
    CandidatesDiffer(name, insert, i, j);
  }

  /** The entries that none of the first i candidates names. */
  ghost function Unseen(entries: set<string>, name: string, path: string, insert: string, i: nat): set<string> {
    set e | e in entries && forall k :: 0 <= k < i ==> e != Entry(name, path, insert, k)
  }

  lemma SeeOne(entries: set<string>, name: string, path: string, insert: string, i: nat)
    requires Entry(name, path, insert, i) in entries
    ensures |Unseen(entries, name, path, insert, i)| == |Unseen(entries, name, path, insert, i + 1)| + 1
  {
    var before, after := Unseen(entries, name, path, insert, i), Unseen(entries, name, path, insert, i + 1);
    var e := Entry(name, path, insert, i);
    forall k | 0 <= k < i ensures e != Entry(name, path, insert, k) {
      if e == Entry(name, path, insert, k) { EntriesDiffer(name, path, insert, i, k); }
    }
    assert before == after + {e};
  }

  /** `path.strip("/")` */
  function Strip(path: string): string {
    if path != [] && path[0] == '/' then Strip(path[1..])
    else if path != [] && path[|path| - 1] == '/' then Strip(path[..|path| - 1])
    else path
  }

  /**
    The search for a free name.  It ends because the candidates are all
    different, within one more try than there are entries; it stops at the least
    counter whose name is free.
   */
  method IncrementFilename(filename: string, path: string, insert: string, entries: set<string>)
    returns (name: string, ghost counter: nat)
    ensures Strip(path) + "/" + name !in entries
    ensures name == Candidate(filename, insert, counter) && counter <= |entries|
    ensures forall i :: 0 <= i < counter ==> Entry(filename, Strip(path), insert, i) in entries
    ensures Strip(path) + "/" + filename !in entries ==> name == filename
  {
    hide *;
    var basename, suffix := Base(filename), Suffix(filename);
    var i := 0;
    name := basename + "" + suffix;
    FirstCandidate(entries, filename, Strip(path), insert);
    EntryIs(filename, Strip(path), insert, 0);
    while Strip(path) + "/" + name in entries
      invariant name == Candidate(filename, insert, i)
      invariant Entry(filename, Strip(path), insert, i) == Strip(path) + "/" + name
      invariant forall k :: 0 <= k < i ==> Entry(filename, Strip(path), insert, k) in entries
      invariant |Unseen(entries, filename, Strip(path), insert, i)| + i == |entries|
      invariant i == 0 ==> name == filename
      invariant i > 0 ==> Strip(path) + "/" + filename in entries
      decreases |Unseen(entries, filename, Strip(path), insert, i)|
    {
      SeeOne(entries, filename, Strip(path), insert, i);
      i := i + 1;
      name := basename + Insertion(insert, i) + suffix;
      EntryIs(filename, Strip(path), insert, i);
    }
    counter := i;
  }

  lemma FirstCandidate(entries: set<string>, name: string, path: string, insert: string)
    ensures Base(name) + "" + Suffix(name) == name && Candidate(name, insert, 0) == name
    ensures Unseen(entries, name, path, insert, 0) == entries
  {
    SplitJoins(name);
    hide Base, Suffix;
    assert Base(name) + "" == Base(name);
  }

  lemma EntryIs(name: string, path: string, insert: string, i: nat)
    ensures Entry(name, path, insert, i) == path + "/" + Candidate(name, insert, i)
    ensures Candidate(name, insert, i) == Base(name) + Insertion(insert, i) + Suffix(name)
  {
  }

  // ---------------------------------------------------------------------
  // The copy marker
  // ---------------------------------------------------------------------

  const COPY := "-Copy"

  /** The decimal digits of any script: the letters of the marker are not among them. */
  type DigitTest = d: char -> bool | IsDigitTest(d) witness IsDecimal

  ghost predicate IsDigitTest(d: char -> bool) {
    && (forall c :: IsDecimal(c) ==> d(c))
    && !d('.') && !d('-') && !d('C') && !d('o') && !d('p') && !d('y')
  }

  /** Where a run of digits that starts at `from` ends. */
  function DigitsEnd(d: DigitTest, s: string, from: nat): (to: nat)
    requires from <= |s|
    ensures from <= to <= |s| && (to < |s| ==> !d(s[to]))
    ensures forall j :: from <= j < to ==> d(s[j])
    decreases |s| - from
  {
    if from < |s| && d(s[from]) then DigitsEnd(d, s, from + 1) else from
  }

  /** The length of a marker at the start of the text, or 0: `-Copy`, digits, a dot. */
  function MarkerLength(d: DigitTest, s: string): (n: nat)
    ensures n <= |s| && (n > 0 ==> n > |COPY|)
  {
    if COPY <= s then
      var to := DigitsEnd(d, s, |COPY|);
      if to < |s| && s[to] == '.' then to + 1 else 0
    else 0
  }

  /** `copy_pat.sub(".", s)` */
  function WithoutMarkers(d: DigitTest, s: string): (r: string)
    ensures |r| <= |s|
    decreases |s|
  {
    if s == [] then []
    else if MarkerLength(d, s) > 0 then "." + WithoutMarkers(d, s[MarkerLength(d, s)..])
    else [s[0]] + WithoutMarkers(d, s[1..])
  }

  predicate HasMarker(d: DigitTest, s: string) {
    exists k | 0 <= k < |s| :: MarkerLength(d, s[k..]) > 0
  }

  lemma MarkerInTail(d: DigitTest, s: string)
    requires s != [] && MarkerLength(d, s) == 0
    ensures HasMarker(d, s) <==> HasMarker(d, s[1..])
  {
    hide MarkerLength;
    assert s[0..] == s;
    if k :| 0 <= k < |s| && MarkerLength(d, s[k..]) > 0 {
      assert s[1..][k - 1..] == s[k..];
    }
    if k :| 0 <= k < |s[1..]| && MarkerLength(d, s[1..][k..]) > 0 {
      assert s[k + 1..] == s[1..][k..];
    }
  }

  lemma MarkerAtStart(d: DigitTest, s: string)
    requires s != [] && MarkerLength(d, s) > 0
    ensures HasMarker(d, s) && |WithoutMarkers(d, s)| < |s|
  {
    hide MarkerLength;
    assert s[0..] == s;
    assert |WithoutMarkers(d, s)| == 1 + |WithoutMarkers(d, s[MarkerLength(d, s)..])|;
  }

  /** Substituting changes a name exactly when it has a marker. */
  lemma {:induction false} UnchangedIff(d: DigitTest, s: string)
    ensures WithoutMarkers(d, s) == s <==> !HasMarker(d, s)
    ensures HasMarker(d, s) ==> |WithoutMarkers(d, s)| < |s|
    decreases |s|
  {
    if s != [] {
      var n := MarkerLength(d, s);
      if n > 0 {
        MarkerAtStart(d, s);
      } else {
        MarkerInTail(d, s);
        UnchangedIff(d, s[1..]);
        hide MarkerLength, HasMarker;
        assert s == [s[0]] + s[1..];
      }
    }
  }

  /** Before an inserted marker, the pattern matches just where it did without it. */
  lemma MarkerBefore(d: DigitTest, s: string, t: string)
    requires s != [] && t != [] && t[0] == '-'
    ensures MarkerLength(d, s + t) == MarkerLength(d, s)
  {
    assert (s + t)[|s|] == '-';
    assert COPY <= s + t <==> COPY <= s;
    if COPY <= s {
      DigitsBefore(d, s, t, |COPY|);
    }
  }

  lemma {:induction false} DigitsBefore(d: DigitTest, s: string, t: string, from: nat)
    requires from <= |s| && t != [] && t[0] == '-'
    ensures DigitsEnd(d, s + t, from) == DigitsEnd(d, s, from)
    decreases |s| - from
  {
    assert (s + t)[|s|] == '-';
    if from < |s| {
      assert (s + t)[from] == s[from];
      if d(s[from]) {
        DigitsBefore(d, s, t, from + 1);
      }
    }
  }

  lemma {:induction false} WithoutBefore(d: DigitTest, s: string, t: string)
    requires t != [] && t[0] == '-'
    ensures WithoutMarkers(d, s + t) == WithoutMarkers(d, s) + WithoutMarkers(d, t)
    decreases |s|
  {
    if s == [] {
      assert s + t == t;
    } else {
      MarkerBefore(d, s, t);
      var n := MarkerLength(d, s);
      var step := if n > 0 then n else 1;
      assert (s + t)[step..] == s[step..] + t && (s + t)[0] == s[0];
      hide MarkerLength;
      WithoutBefore(d, s[step..], t);
      var head := if n > 0 then "." else [s[0]];
      assert head + (WithoutMarkers(d, s[step..]) + WithoutMarkers(d, t)) ==
        head + WithoutMarkers(d, s[step..]) + WithoutMarkers(d, t);
    }
  }

  /** A marker with any digits is as long as it looks. */
  lemma {:induction false} DigitsEndAt(d: DigitTest, s: string, from: nat, to: nat)
    requires from <= to < |s| && s[to] == '.' && forall j :: from <= j < to ==> d(s[j])
    ensures DigitsEnd(d, s, from) == to
    decreases |s| - from
  {
    if from < to {
      DigitsEndAt(d, s, from + 1, to);
    }
  }

  lemma MarkerGoes(d: DigitTest, digits: string, rest: string)
    requires forall j :: 0 <= j < |digits| ==> IsDecimal(digits[j])
    ensures WithoutMarkers(d, COPY + digits + "." + rest) == "." + WithoutMarkers(d, rest)
  {
    var s := COPY + digits + "." + rest;
    var to := |COPY| + |digits|;
    assert forall j :: |COPY| <= j < to ==> s[j] == digits[j - |COPY|];
    DigitsEndAt(d, s, |COPY|, to);
    assert MarkerLength(d, s) == to + 1;
    assert s[to + 1..] == rest;
  }

  /** What follows the dot where a name with a dot is split. */
  function Rest(name: string): string
    requires '.' in name
  {
    SplitJoins(name);
    Suffix(name)[1..]
  }

  lemma DotSplit(name: string)
    requires '.' in name
    ensures Suffix(name) == "." + Rest(name) && name == Base(name) + "." + Rest(name)
  {
    SplitJoins(name);
    hide Base, Suffix;
    assert Suffix(name) == [Suffix(name)[0]] + Suffix(name)[1..];
    assert Base(name) + ("." + Rest(name)) == Base(name) + "." + Rest(name);
  }

  lemma CandidateIs(name: string, i: nat)
    requires i > 0 && '.' in name
    ensures Candidate(name, COPY, i) == Base(name) + (COPY + Decimal(i) + "." + Rest(name))
  {
    DotSplit(name);
    hide Base, Suffix, Rest, Decimal;
    assert Insertion(COPY, i) == COPY + Decimal(i);
    assert Base(name) + (COPY + Decimal(i)) + ("." + Rest(name)) == Base(name) + (COPY + Decimal(i) + "." + Rest(name));
  }

  /** What the substitution makes of a copy's name. */
  lemma CopyWithout(d: DigitTest, name: string, i: nat)
    requires i > 0 && '.' in name
    ensures WithoutMarkers(d, Candidate(name, COPY, i)) ==
      WithoutMarkers(d, Base(name)) + "." + WithoutMarkers(d, Rest(name))
  {
    var base, rest := Base(name), Rest(name);
    var t := COPY + Decimal(i) + "." + rest;
    assert t[0] == '-';
    hide *;
    CandidateIs(name, i);
    WithoutBefore(d, base, t);
    MarkerGoes(d, Decimal(i), rest);
    assert WithoutMarkers(d, base) + ("." + WithoutMarkers(d, rest)) ==
      WithoutMarkers(d, base) + "." + WithoutMarkers(d, rest);
  }

  /**
    A copy's name goes back to the name it came from exactly when neither the
    part before the number nor the part after the dot has a marker of its own.
   */
  lemma UndoneIff(d: DigitTest, name: string, i: nat)
    requires i > 0 && '.' in name
    ensures WithoutMarkers(d, Candidate(name, COPY, i)) == name <==>
      !HasMarker(d, Base(name)) && !HasMarker(d, Rest(name))
  {
    hide *;
    DotSplit(name);
    CopyWithout(d, name, i);
    UnchangedIff(d, Base(name));
    UnchangedIff(d, Rest(name));
    JoinedEqual(WithoutMarkers(d, Base(name)), WithoutMarkers(d, Rest(name)), Base(name), Rest(name));
  }

  lemma JoinedEqual(x: string, y: string, base: string, rest: string)
    requires |x| <= |base| && |y| <= |rest|
    ensures x + "." + y == base + "." + rest <==> x == base && y == rest
  {
    if x + "." + y == base + "." + rest {
      var all := x + "." + y;
      assert |all| == |x| + 1 + |y| == |base| + 1 + |rest|;
      assert x == all[..|x|] && base == all[..|x|];
      assert y == all[|x| + 1..] && rest == all[|x| + 1..];
    }
  }

  lemma PartsHaveNoMarker(d: DigitTest, s: string, t: string)
    requires !HasMarker(d, s + t)
    ensures !HasMarker(d, t)
    ensures !HasMarker(d, s)
  {
    forall k | 0 <= k < |t| ensures MarkerLength(d, t[k..]) == 0 {
      assert (s + t)[|s| + k..] == t[k..];
    }
    forall k | 0 <= k < |s| ensures MarkerLength(d, s[k..]) == 0 {
      assert (s + t)[k..] == s[k..] + t;
      if MarkerLength(d, s[k..]) > 0 {
        MarkerStays(d, s[k..], t);
      }
    }
  }

  lemma MarkerStays(d: DigitTest, s: string, t: string)
    requires MarkerLength(d, s) > 0
    ensures MarkerLength(d, s + t) == MarkerLength(d, s)
  {
    var to := DigitsEnd(d, s, |COPY|);
    assert (s + t)[..|COPY|] == s[..|COPY|];
    DigitsEndAt(d, s + t, |COPY|, to);
  }

  /** Substituting undoes the insertion, for every counter, for names with an extension and no marker. */
  lemma SubstitutionUndoesCopy(d: DigitTest, name: string, i: nat)
    requires '.' in name && !HasMarker(d, name)
    ensures WithoutMarkers(d, Candidate(name, COPY, i)) == name
  {
    SplitJoins(name);
    if i == 0 {
      assert Candidate(name, COPY, 0) == name;
      hide *;
      UnchangedIff(d, name);
    } else {
      hide *;
      DotSplit(name);
      PartsHaveNoMarker(d, Base(name), Suffix(name));
      PartsHaveNoMarker(d, ".", Rest(name));
      UndoneIff(d, name, i);
    }
  }

  lemma MarkerHasDot(d: DigitTest, s: string)
    ensures MarkerLength(d, s) > 0 ==> '.' in s
  {
  }

  /** Without a dot there is no marker, so the insertion stays. */
  lemma NoDotNoUndo(d: DigitTest, name: string, i: nat)
    requires '.' !in name && i > 0
    ensures WithoutMarkers(d, Candidate(name, COPY, i)) == Candidate(name, COPY, i) != name
  {
    var copy := Candidate(name, COPY, i);
    assert '.' !in copy;
    forall k | 0 <= k < |copy| ensures MarkerLength(d, copy[k..]) == 0 {
      MarkerHasDot(d, copy[k..]);
    }
    UnchangedIff(d, copy);
    SplitJoins(name);
    assert |copy| > |name|;
  }

  /** The name that a copy into an existing directory gets; copies of copies are numbered with their original. */
  method CopyName(d: DigitTest, fromName: string, toPath: string, entries: set<string>)
    returns (name: string, ghost counter: nat)
    ensures Strip(toPath) + "/" + name !in entries
    ensures name == Candidate(WithoutMarkers(d, fromName), COPY, counter) && counter <= |entries|
    ensures forall original, i ::
      ('.' in original && !HasMarker(d, original) && fromName == Candidate(original, COPY, i)) ==>
      name == Candidate(original, COPY, counter)
  {
    forall original, i | '.' in original && !HasMarker(d, original) && fromName == Candidate(original, COPY, i)
      ensures WithoutMarkers(d, fromName) == original
    {
      SubstitutionUndoesCopy(d, original, i);
    }
    name, counter := IncrementFilename(WithoutMarkers(d, fromName), toPath, COPY, entries);
  }

  // ---------------------------------------------------------------------
  // Checkpoint files
  // ---------------------------------------------------------------------

  /** Something other than a dot comes before position n. */
  predicate HasNonDot(s: string, n: nat)
    requires n <= |s|
  {
    exists k | 0 <= k < n :: s[k] != '.'
  }

  /** Where `os.path.splitext` cuts: at the last dot, unless only dots come before it. */
  function ExtensionAt(name: string): (r: nat)
    ensures r <= |name|
  {
    var last := LastDot(name);
    if last >= 0 && HasNonDot(name, last) then last else |name|
  }

  function CheckpointName(id: string, name: string): string {
    Stem(name) + "-" + id + Ext(name)
  }

  /** A dot anywhere after `b2` in a text with period |b1| - |b2| moves down into `b1`. */
  lemma {:induction false} DotMovesDown(f: string, b1: string, n: nat, s: string, x: nat)
    requires f == b1 + s && n < |b1| && n + |s| <= |f| && f[n..n + |s|] == s
    requires n + x < |f| && x <= |s| && f[n + x] == '.'
    ensures exists p :: n <= p < |b1| && b1[p] == '.'
    decreases x
  {
    var shift := |b1| - n;
    if x < shift {
      assert b1[n + x] == f[n + x];
    } else {
      assert f[n + x] == s[x - shift];
      assert f[n..n + |s|][x - shift] == f[n + (x - shift)];
      DotMovesDown(f, b1, n, s, x - shift);
    }
  }

  function Stem(name: string): string {
    name[..ExtensionAt(name)]
  }

  function Ext(name: string): string {
    name[ExtensionAt(name)..]
  }

  lemma ExtIs(name: string)
    ensures Stem(name) + Ext(name) == name
    ensures Ext(name) != [] ==> Ext(name)[0] == '.' && forall j :: 0 < j < |Ext(name)| ==> Ext(name)[j] != '.'
    ensures Ext(name) != [] ==> HasNonDot(Stem(name), |Stem(name)|)
    ensures Ext(name) == [] ==> forall j, k :: 0 <= k < j < |name| && name[j] == '.' ==> name[k] == '.'
  {
    var last := LastDot(name);
    if last >= 0 && HasNonDot(name, last) {
      var k :| 0 <= k < last && name[k] != '.';
      assert Stem(name)[k] == name[k];
    }
  }

  /** Extensions of different lengths: the longer would hold a second dot. */
  lemma LongerExtensionDiffers(id: string, m: string, n: string)
    requires 0 < |Ext(m)| < |Ext(n)|
    ensures CheckpointName(id, m) != CheckpointName(id, n)
  {
    ExtIs(m);
    ExtIs(n);
    var x, y := CheckpointName(id, m), CheckpointName(id, n);
    assert x[|x| - |Ext(m)|] == Ext(m)[0];
    assert y[|y| - |Ext(m)|] == Ext(n)[|Ext(n)| - |Ext(m)|];
  }

  /** A name without an extension against one with: the dot would have to be in the former's stem. */
  lemma NoExtensionDiffers(id: string, m: string, n: string)
    requires Ext(m) == [] && Ext(n) != []
    ensures CheckpointName(id, m) != CheckpointName(id, n)
  {
    ExtIs(m);
    ExtIs(n);
    var f, s := CheckpointName(id, n), "-" + id;
    var b := |Stem(n)|;
    assert f == Stem(n) + s + Ext(n) && f[b..b + |s|] == s && f[b + |s|] == '.';
    assert CheckpointName(id, m) == m + s;
    if f == m + s {
      assert b < |m|;
      var k :| 0 <= k < b && Stem(n)[k] != '.';
      assert m[k] == f[k] == Stem(n)[k];
      DotMovesDown(f, m, b, s, |s|);
    }
  }

  /** For every checkpoint id, no two file names share a checkpoint file. */
  lemma CheckpointsDoNotCollide(id: string, m: string, n: string)
    requires CheckpointName(id, m) == CheckpointName(id, n)
    ensures m == n
  {
    hide *;
    ExtIs(m);
    ExtIs(n);
    if |Ext(m)| == |Ext(n)| {
      SameCut(id, m, n);
    } else if Ext(m) == [] {
      NoExtensionDiffers(id, m, n);
    } else if Ext(n) == [] {
      NoExtensionDiffers(id, n, m);
    } else if |Ext(m)| < |Ext(n)| {
      LongerExtensionDiffers(id, m, n);
    } else {
      LongerExtensionDiffers(id, n, m);
    }
  }

  lemma SameCut(id: string, m: string, n: string)
    requires |Ext(m)| == |Ext(n)| && CheckpointName(id, m) == CheckpointName(id, n)
    ensures m == n
  {
    ExtIs(m);
    ExtIs(n);
    var f := CheckpointName(id, m);
    assert |f| == |Stem(m)| + 1 + |id| + |Ext(m)| == |Stem(n)| + 1 + |id| + |Ext(n)|;
    assert Stem(m) == f[..|Stem(m)|] && Stem(n) == f[..|Stem(m)|];
    assert Ext(m) == f[|f| - |Ext(m)|..] && Ext(n) == f[|f| - |Ext(m)|..];
  }
}
