/** How the parts of made-up names read: numbers, markers, suffixes, extensions. */
module NameLaws {
  import opened Names

  // ---------------------------------------------------------------------
  // Numbers
  // ---------------------------------------------------------------------

  /** The number that a string of decimal digits spells. */
  function Spelled(s: string): int {
    if s == [] then 0 else 10 * Spelled(s[..|s| - 1]) + (s[|s| - 1] as int - '0' as int)
  }

  /** The decimals of a number spell it, with no zero in front. */
  lemma {:induction false} DecimalSpells(n: nat)
    ensures Spelled(Decimal(n)) == n
    ensures n > 0 ==> Decimal(n)[0] != '0'
    decreases n
  {
    var s := Decimal(n);
    assert s[|s| - 1] as int - '0' as int == n % 10;
    if n >= 10 {
      DecimalSpells(n / 10);
      assert s[..|s| - 1] == Decimal(n / 10);
    } else {
      assert s[..0] == [];
    }
  }

  /** A numbered name: the name with the inserted text and a number between its two parts. */
  lemma NumberedName(name: string, insert: string, i: nat) returns (digits: string)
    requires i > 0
    ensures Candidate(name, insert, i) == Base(name) + (insert + digits) + Suffix(name)
    ensures Spelled(digits) == i && digits[0] != '0' && forall j :: 0 <= j < |digits| ==> '0' <= digits[j] <= '9'
  {
    digits := Decimal(i);
    DecimalSpells(i);
  }

  /** The name itself comes first. */
  lemma FirstIsTheName(name: string, insert: string)
    ensures Candidate(name, insert, 0) == name
  {
    SplitJoins(name);
    hide Base, Suffix;
    assert Base(name) + "" == Base(name);
  }

  // ---------------------------------------------------------------------
  // Suffixes
  // ---------------------------------------------------------------------

  lemma LastDotIs(s: string, k: nat)
    requires k < |s| && s[k] == '.' && forall j :: k < j < |s| ==> s[j] != '.'
    ensures LastDot(s) == k
  {
  }

  /**
    Names ending in `.ipynb` are split there, and every other name with a dot
    before its first dot.
   */
  lemma WhereNamesAreSplit(name: string, stem: string)
    ensures name == stem + ".ipynb" ==> Base(name) == stem && Suffix(name) == ".ipynb"
    ensures '.' in name && (forall s :: name != s + ".ipynb") ==>
      '.' !in Base(name) && Suffix(name) != [] && Suffix(name)[0] == '.'
  {
    SplitJoins(name);
    SuffixIs(name);
    hide Base, Suffix;
    if name == stem + ".ipynb" {
      LastDotIs(name, |stem|);
      assert Extension(name) == "ipynb" && Suffix(name) == ".ipynb";
      assert Base(name) == name[..|stem|] == stem;
    } else if '.' in name && Extension(name) == "ipynb" {
      assert name == Base(name) + ".ipynb";
    }
  }

  /** Slashes go at both ends of a path, and only there. */
  lemma {:induction false} StripIs(path: string) returns (before: string, after: string)
    ensures path == before + Strip(path) + after
    ensures (forall i :: 0 <= i < |before| ==> before[i] == '/') && (forall i :: 0 <= i < |after| ==> after[i] == '/')
    ensures Strip(path) != [] ==> Strip(path)[0] != '/' && Strip(path)[|Strip(path)| - 1] != '/'
    decreases |path|
  {
    if path != [] && path[0] == '/' {
      before, after := StripIs(path[1..]);
      SlashBefore(path, before, Strip(path), after);
      before := [path[0]] + before;
    } else if path != [] && path[|path| - 1] == '/' {
      before, after := StripIs(path[..|path| - 1]);
      SlashAfter(path, before, Strip(path), after);
      after := after + [path[|path| - 1]];
    } else {
      before, after := [], [];
      assert path == [] + path + [];
    }
  }

  lemma SlashBefore(path: string, before: string, rest: string, after: string)
    requires path != [] && path[1..] == before + rest + after
    ensures path == ([path[0]] + before) + rest + after
  {
    assert path == [path[0]] + path[1..];
  }

  lemma SlashAfter(path: string, before: string, rest: string, after: string)
    requires path != [] && path[..|path| - 1] == before + rest + after
    ensures path == before + rest + (after + [path[|path| - 1]])
  {
    assert path == path[..|path| - 1] + [path[|path| - 1]];
  }

  // ---------------------------------------------------------------------
  // Markers
  // ---------------------------------------------------------------------

  /** A marker is `-Copy`, any digits, perhaps none, and a dot. */
  lemma MarkerIs(d: DigitTest, s: string, n: nat)
    requires n > 0
    ensures MarkerLength(d, s) == n <==>
      6 <= n <= |s| && s[..5] == "-Copy" && s[n - 1] == '.' && forall j :: 5 <= j < n - 1 ==> d(s[j])
  {
    if 6 <= n <= |s| && s[..5] == "-Copy" && s[n - 1] == '.' && forall j :: 5 <= j < n - 1 ==> d(s[j]) {
      DigitsEndAt(d, s, 5, n - 1);
    }
  }

  /** Nowhere in `before` does a marker begin, be it one that ends in what follows. */
  predicate NoMarkerIn(d: DigitTest, before: string, after: string) {
    forall j :: 0 <= j < |before| ==> MarkerLength(d, (before + after)[j..]) == 0
  }

  lemma NoMarkerInRest(d: DigitTest, before: string, after: string)
    requires before != [] && NoMarkerIn(d, before, after)
    ensures MarkerLength(d, before + after) == 0 && NoMarkerIn(d, before[1..], after)
  {
    hide MarkerLength;
    assert (before + after)[0..] == before + after;
    forall j | 0 <= j < |before[1..]| ensures MarkerLength(d, (before[1..] + after)[j..]) == 0 {
      assert (before[1..] + after)[j..] == (before + after)[j + 1..];
    }
  }

  lemma OneCharStays(d: DigitTest, s: string)
    requires s != [] && MarkerLength(d, s) == 0
    ensures WithoutMarkers(d, s) == [s[0]] + WithoutMarkers(d, s[1..])
  {
  }

  lemma MarkerBecomesDot(d: DigitTest, s: string)
    requires MarkerLength(d, s) > 0
    ensures WithoutMarkers(d, s) == "." + WithoutMarkers(d, s[MarkerLength(d, s)..])
  {
  }

  /** Text up to the first marker stays, the marker becomes a dot, and the rest is done in the same way. */
  lemma {:induction false} FirstMarkerGoes(d: DigitTest, before: string, marked: string)
    requires MarkerLength(d, marked) > 0 && NoMarkerIn(d, before, marked)
    ensures WithoutMarkers(d, before + marked) ==
      before + "." + WithoutMarkers(d, marked[MarkerLength(d, marked)..])
    decreases |before|
  {
    MarkerBecomesDot(d, marked);
    hide *;
    if before == [] {
      assert before + marked == marked;
      assert before + "." == ".";
    } else {
      NoMarkerInRest(d, before, marked);
      FirstMarkerGoes(d, before[1..], marked);
      OneCharStays(d, before + marked);
      OneCharOff(before, marked);
      OneCharOn(before, WithoutMarkers(d, marked[MarkerLength(d, marked)..]));
    }
  }

  lemma OneCharOff(s: string, t: string)
    requires s != []
    ensures (s + t)[0] == s[0] && (s + t)[1..] == s[1..] + t
  {
  }

  lemma OneCharOn(s: string, t: string)
    requires s != []
    ensures [s[0]] + (s[1..] + "." + t) == s + "." + t
  {
  }

  // ---------------------------------------------------------------------
  // Checkpoints
  // ---------------------------------------------------------------------

  /** A checkpoint's name: the file's name with "-" and the id before its extension. */
  lemma CheckpointNameIs(id: string, name: string) returns (stem: string, ext: string)
    ensures name == stem + ext && CheckpointName(id, name) == stem + "-" + id + ext
    ensures ext == [] || (ext[0] == '.' && (forall j :: 0 < j < |ext| ==> ext[j] != '.') && HasNonDot(stem, |stem|))
    ensures ext == [] ==> forall j, k :: 0 <= k < j < |name| && name[j] == '.' ==> name[k] == '.'
  {
    ExtIs(name);
    stem, ext := Stem(name), Ext(name);
  }

  lemma ExtensionAtIs(s: string, k: nat)
    requires k < |s| && s[k] == '.' && (forall j :: k < j < |s| ==> s[j] != '.') && HasNonDot(s, k)
    ensures ExtensionAt(s) == k
  {
    LastDotIs(s, k);
  }

  /** So a checkpoint has the extension of its file, unless the id brings in a dot. */
  lemma CheckpointKeepsExtension(id: string, name: string)
    requires '.' !in id
    ensures Ext(CheckpointName(id, name)) == Ext(name)
    ensures Stem(CheckpointName(id, name)) == Stem(name) + "-" + id
  {
    ExtIs(name);
    var stem, ext := Stem(name), Ext(name);
    var c := CheckpointName(id, name);
    var at := |stem| + 1 + |id|;
    assert c == stem + "-" + id + ext && c[|stem|] == '-';
    hide Stem, Ext, CheckpointName;
    if ext != [] {
      assert forall j :: at <= j < |c| ==> c[j] == ext[j - at];
      assert HasNonDot(c, at);
      ExtensionAtIs(c, at);
    } else {
      NoExtensionEither(name, "-" + id);
      assert c == name + ("-" + id);
    }
    CutAt(c, if ext != [] then at else |c|);
  }

  lemma CutAt(s: string, k: nat)
    requires k <= |s| && ExtensionAt(s) == k
    ensures Stem(s) == s[..k] && Ext(s) == s[k..]
  {
  }

  /** In a name without an extension only dots come before a dot, whatever without a dot is added. */
  lemma NoExtensionEither(name: string, more: string)
    requires '.' !in more && forall j, k :: 0 <= k < j < |name| && name[j] == '.' ==> name[k] == '.'
    ensures ExtensionAt(name + more) == |name + more|
  {
    assert forall j :: 0 <= j < |name| ==> (name + more)[j] == name[j];
  }
}
