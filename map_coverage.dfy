/** The coverage map (src/components/MapCoverage.tsx): how district names
    are canonicalised, how a feature's name is found in its property bag, how
    the districts are split into the "west", "covered" and Bratislava layers,
    and the state slots the two asynchronous loads and the resize handler write. */
module MapCoverage {
  import opened Wrappers
  import opened Text

  // ---------------------------------------------------------------------------
  // normalizeName: NFD, drop U+0300-U+036F, toLowerCase, drop /^okres\s+/, trim
  // ---------------------------------------------------------------------------

  /** The combining diacritical marks `[̀-ͯ]` removes. */
  predicate IsCombiningMark(c: char) {
    '\U{0300}' <= c <= '\U{036F}'
  }

  /** The upper-case letters of the Slovak alphabet with a diacritic, each
      mapped to what its canonical decomposition leaves once the mark is dropped
      and the case folded: its lower-case base letter. */
  const UpperAccented: map<char, char> :=
    map['Á' := 'a', 'Ä' := 'a', 'Č' := 'c', 'Ď' := 'd', 'É' := 'e', 'Í' := 'i', 'Ĺ' := 'l', 'Ľ' := 'l', 'Ň' := 'n', 'Ó' := 'o', 'Ô' := 'o', 'Ŕ' := 'r', 'Š' := 's', 'Ť' := 't', 'Ú' := 'u', 'Ý' := 'y', 'Ž' := 'z']

  /** The same for the lower-case letters of the Slovak alphabet with a diacritic. */
  const LowerAccented: map<char, char> :=
    map['á' := 'a', 'ä' := 'a', 'č' := 'c', 'ď' := 'd', 'é' := 'e', 'í' := 'i', 'ĺ' := 'l', 'ľ' := 'l', 'ň' := 'n', 'ó' := 'o', 'ô' := 'o', 'ŕ' := 'r', 'š' := 's', 'ť' := 't', 'ú' := 'u', 'ý' := 'y', 'ž' := 'z']

  /** Both tables map letters of the Latin-1 Supplement and Latin Extended-A
      blocks to ASCII lower-case letters. */
  lemma AccentTables()
    ensures forall k :: k in UpperAccented ==> '\U{00C0}' <= k <= '\U{017F}' && 'a' <= UpperAccented[k] <= 'z'
    ensures forall k :: k in LowerAccented ==> '\U{00C0}' <= k <= '\U{017F}' && 'a' <= LowerAccented[k] <= 'z'
  {
  }

  /** The upper-case letters the fold lower-cases: ASCII A-Z and the upper-case
      letters of the Slovak alphabet. */
  predicate IsUpper(c: char) {
    ('A' <= c <= 'Z') || c in UpperAccented
  }

  /** One character through `normalize("NFD")`, the mark filter and
      `toLowerCase()`: a combining mark disappears, a Slovak letter becomes its
      lower-case base letter, A-Z become a-z, anything else is kept. */
  function FoldChar(c: char): string {
    if c < '\U{0080}' then (if 'A' <= c <= 'Z' then [(c as int + 32) as char] else [c])
    else if IsCombiningMark(c) then []
    else if c in UpperAccented then [UpperAccented[c]]
    else if c in LowerAccented then [LowerAccented[c]]
    else [c]
  }

  /** The fold drops exactly the combining marks, yields at most one
      character, never an upper-case letter or a mark, and keeps white space
      and lower-case ASCII letters as they are. */
  lemma FoldCharSpec(c: char)
    ensures |FoldChar(c)| <= 1
    ensures FoldChar(c) == [] <==> IsCombiningMark(c)
    ensures forall x :: x in FoldChar(c) ==> Folded(x)
    ensures IsSpace(c) ==> FoldChar(c) == [c]
    ensures 'a' <= c <= 'z' ==> FoldChar(c) == [c]
  {
    AccentTables();
  }

  /** What the fold produces: no combining mark, no upper-case letter. */
  predicate Folded(c: char) {
    !IsCombiningMark(c) && !IsUpper(c)
  }

  /** The whole string through the per-character fold. */
  function FoldAll(s: string): string {
    if s == [] then [] else FoldChar(s[0]) + FoldAll(s[1..])
  }

  lemma {:induction false} FoldAllSpec(s: string)
    ensures |FoldAll(s)| <= |s|
    ensures forall i :: 0 <= i < |FoldAll(s)| ==> Folded(FoldAll(s)[i])
  {
    if s != [] {
      FoldCharSpec(s[0]);
      FoldAllSpec(s[1..]);
    }
  }

  lemma {:induction false} FoldAllAppend(a: string, b: string)
    ensures FoldAll(a + b) == FoldAll(a) + FoldAll(b)
  {
    if a == [] {
      assert a + b == b;
    } else {
      assert (a + b)[1..] == a[1..] + b;
      FoldAllAppend(a[1..], b);
    }
  }

  /** Lower-case ASCII letters and the space come through the fold unchanged. */
  lemma {:induction false} FoldAllFixed(s: string)
    requires forall i :: 0 <= i < |s| ==> ('a' <= s[i] <= 'z') || s[i] == ' '
    ensures FoldAll(s) == s
  {
    if s != [] {
      assert FoldChar(s[0]) == [s[0]];
      FoldAllFixed(s[1..]);
    }
  }

  /** `.replace(/^okres\s+/, "")`: "okres" followed by at least one white-space
      character, at the very start only; the greedy `\s+` takes the whole run. */
  predicate HasOkresPrefix(s: string) {
    |s| > 5 && s[..5] == "okres" && IsSpace(s[5])
  }

  function StripOkres(s: string): string {
    if HasOkresPrefix(s) then TrimStart(s[5..]) else s
  }

  /** What the prefix rule leaves is a suffix of its input. */
  lemma StripOkresSuffix(s: string)
    ensures |StripOkres(s)| <= |s| && StripOkres(s) == s[|s| - |StripOkres(s)|..]
  {
    if HasOkresPrefix(s) {
      TrimStartSpec(s[5..]);
    }
  }

  /** `normalizeName`. */
  function Normalize(s: string): string {
    Trim(StripOkres(FoldAll(s)))
  }

  /** A normalised name holds no combining mark and no upper-case letter, and
      has no white space at either end. */
  lemma NormalizeSpec(s: string)
    ensures forall i :: 0 <= i < |Normalize(s)| ==> Folded(Normalize(s)[i])
    ensures NoSpaceAtEnds(Normalize(s))
  {
    var f := FoldAll(s);
    var g := StripOkres(f);
    var r := Trim(g);
    FoldAllSpec(s);
    StripOkresSuffix(f);
    TrimSpec(g);
    forall i | 0 <= i < |r| ensures Folded(r[i]) {
      TrimChars(g, i);
      var j := |g| - |TrimStart(g)| + i;
      assert r[i] == g[j];
      assert g[j] == f[|f| - |g| + j];
    }
  }

  /** The prefix is removed only when the folded string begins with it; in
      every other case normalising is folding and trimming. */
  lemma OkresOnlyAtStart(s: string)
    ensures HasOkresPrefix(FoldAll(s)) ==> Normalize(s) == Trim(FoldAll(s)[5..])
    ensures !HasOkresPrefix(FoldAll(s)) ==> Normalize(s) == Trim(FoldAll(s))
  {
    var f := FoldAll(s);
    if HasOkresPrefix(f) {
      TrimAfterTrimStart(f[5..]);
    }
  }

  /** A name whose first character folds to a letter other than "o" normalises
      to a non-empty name starting with that letter. */
  lemma NormalizeFirst(s: string, c: char)
    requires s != [] && FoldChar(s[0]) == [c] && !IsSpace(c) && c != 'o'
    ensures Normalize(s) != [] && Normalize(s)[0] == c
  {
    var f := FoldAll(s);
    assert f[0] == c;
    assert !HasOkresPrefix(f) by {
      if |f| > 5 { assert f[..5][0] == c; }
    }
    TrimKeepsFirst(f);
  }

  predicate LowerAscii(t: string) {
    forall i :: 0 <= i < |t| ==> 'a' <= t[i] <= 'z'
  }

  lemma FoldSpaceO()
    ensures FoldAll([' ', 'O']) == " o"
  {
  }

  lemma FoldKres()
    ensures FoldAll("kres ") == "kres "
  {
    FoldAllFixed("kres ");
  }

  lemma FoldSpacedOkres(t: string)
    ensures FoldAll(" Okres " + t) == " okres " + FoldAll(t)
  {
    assert " Okres " + t == ([' ', 'O'] + "kres ") + t;
    FoldAllAppend([' ', 'O'] + "kres ", t);
    FoldAllAppend([' ', 'O'], "kres ");
    FoldSpaceO();
    FoldKres();
  }

  lemma FoldOkresWord(u: string)
    requires LowerAscii(u)
    ensures FoldAll("okres " + u) == "okres " + u
  {
    FoldAllFixed("okres " + u);
  }

  lemma LowerAsciiUnpadded(u: string)
    requires u != [] && LowerAscii(u)
    ensures NoSpaceAtEnds(u) && NoSpaceAtEnds("okres " + u)
  {
  }

  lemma OkresThenWord(u: string)
    ensures HasOkresPrefix("okres " + u)
    ensures ("okres " + u)[5..] == [' '] + u
  {
  }

  lemma SpaceBeforeOkres(once: string)
    requires |once| > 0 && once[0] == 'o'
    ensures !HasOkresPrefix([' '] + once)
  {
    if |once| >= 5 {
      assert ([' '] + once)[..5][0] == ' ';
    }
  }

  lemma NormalizeOkresWord(u: string)
    requires u != [] && LowerAscii(u)
    ensures Normalize("okres " + u) == u
  {
    FoldOkresWord(u);
    OkresThenWord(u);
    OkresOnlyAtStart("okres " + u);
    LowerAsciiUnpadded(u);
    SpaceThenUnpadded(u);
  }

  lemma SpaceOkresSplit(u: string)
    ensures " okres " + u == [' '] + ("okres " + u)
  {
  }

  /** The first pass: the leading space hides the prefix from the rule. */
  lemma SpacedOkresOnce(t: string)
    requires FoldAll(t) != [] && LowerAscii(FoldAll(t))
    ensures Normalize(" Okres " + t) == "okres " + FoldAll(t)
  {
    var u := FoldAll(t);
    FoldSpacedOkres(t);
    SpaceOkresSplit(u);
    SpaceBeforeOkres("okres " + u);
    OkresOnlyAtStart(" Okres " + t);
    LowerAsciiUnpadded(u);
    SpaceThenUnpadded("okres " + u);
  }

  /** Normalising is not idempotent: a leading space protects "okres" from the
      prefix rule in the first pass, and the trim then exposes it to the second. */
  lemma NotIdempotent(t: string)
    requires FoldAll(t) != [] && LowerAscii(FoldAll(t))
    ensures Normalize(" Okres " + t) == "okres " + FoldAll(t)
    ensures Normalize(Normalize(" Okres " + t)) == FoldAll(t)
    ensures Normalize(Normalize(" Okres " + t)) != Normalize(" Okres " + t)
  {
    SpacedOkresOnce(t);
    NormalizeOkresWord(FoldAll(t));
  }

  lemma FoldCapitalN()
    ensures FoldAll(['N']) == ['n']
  {
  }

  lemma FoldNitra()
    ensures FoldAll("Nitra") == "nitra"
  {
    FoldCapitalN();
    FoldAllFixed("itra");
    FoldAllAppend(['N'], "itra");
    assert ['N'] + "itra" == "Nitra";
  }

  lemma NitraLiterals()
    ensures LowerAscii("nitra")
    ensures " Okres " + "Nitra" == " Okres Nitra"
    ensures "okres " + "nitra" == "okres nitra"
  {
  }

  /** The instance from the configured data, first pass: " Okres Nitra". */
  lemma NitraFirstPass()
    ensures Normalize(" Okres Nitra") == "okres nitra"
  {
    FoldNitra();
    NitraLiterals();
    SpacedOkresOnce("Nitra");
  }

  /** ... and the second pass, which removes the prefix the first one kept. */
  lemma NitraSecondPass()
    ensures Normalize("okres nitra") == "nitra"
  {
    NitraLiterals();
    NormalizeOkresWord("nitra");
  }

  /** A name starting with a capital letter other than "O" (or with "Š")
      normalises to a non-empty name that starts with that letter folded. */
  predicate CapitalInitial(s: string) {
    s != [] && (('A' <= s[0] <= 'Z' && s[0] != 'O') || s[0] == 'Š')
  }

  lemma CapitalNormalizesNonEmpty(s: string)
    requires CapitalInitial(s)
    ensures Normalize(s) != [] && Normalize(s)[0] == FoldChar(s[0])[0]
  {
    AccentTables();
    var c := FoldChar(s[0])[0];
    assert FoldChar(s[0]) == [c];
    NormalizeFirst(s, c);
  }

  // ---------------------------------------------------------------------------
  // getDistrictNameRaw
  // ---------------------------------------------------------------------------

  /** A GeoJSON property value; only whether it is a string, and which one,
      matters here. */
  datatype Value = Str(s: string) | NonString

  /** The entries of a property object in `Object.entries` order. */
  type Props = seq<(string, Value)>

  /** A district feature: an opaque geometry and a property object that may be
      missing (`null`). */
  datatype Feature = Feature(geometry: nat, properties: Option<Props>)

  /** `f.properties || {}`. */
  function PropsOf(f: Feature): Props {
    f.properties.GetOr([])
  }

  /** The keys tried first, in priority order. */
  const CandidateKeys: seq<string> :=
    ["NM3", "name", "Name", "LAU_NAME", "DISTRICT", "District", "Okres", "okres", "NUTS_NAME"]

  /** `typeof val === "string" && val.trim()`: a string that is not all white
      space (see `UsableTrim`). */
  predicate Usable(v: Value) {
    v.Str? && !AllSpace(v.s)
  }

  lemma UsableTrim(v: Value)
    ensures Usable(v) <==> v.Str? && Trim(v.s) != []
  {
    if v.Str? {
      TrimSpec(v.s);
    }
  }

  /** Position of the entry `props[key]` reads (the first with that key), or
      `|props|` when the key is absent. */
  function KeyIndex(props: Props, key: string): (i: nat)
    ensures i <= |props|
    ensures forall j :: 0 <= j < i ==> props[j].0 != key
    ensures i < |props| ==> props[i].0 == key
  {
    if props == [] then 0
    else if props[0].0 == key then 0
    else 1 + KeyIndex(props[1..], key)
  }

  /** `props[key]`: `None` stands for `undefined`. */
  function Lookup(props: Props, key: string): Option<Value> {
    var i := KeyIndex(props, key);
    if i < |props| then Some(props[i].1) else None
  }

  predicate UsableAt(props: Props, key: string) {
    Lookup(props, key).Some? && Usable(Lookup(props, key).value)
  }

  /** The second loop: the first string value that is not blank, in property
      order, or "" when there is none. */
  function ScanProps(props: Props): (r: string)
    ensures r == [] || !AllSpace(r)
  {
    if props == [] then ""
    else if Usable(props[0].1) then props[0].1.s
    else ScanProps(props[1..])
  }

  /** The first loop over `keys`, falling through to the second loop. */
  function NameByKeys(props: Props, keys: seq<string>): (r: string)
    ensures r == [] || !AllSpace(r)
  {
    if keys == [] then ScanProps(props)
    else if UsableAt(props, keys[0]) then Lookup(props, keys[0]).value.s
    else NameByKeys(props, keys[1..])
  }

  /** `getDistrictNameRaw`: the untrimmed value of the first candidate key whose
      value is a non-blank string, else the first non-blank string value, else
      the empty string. Whatever it returns is blank only when it is empty. */
  function GetDistrictNameRaw(f: Feature): (r: string)
    ensures r == [] || Trim(r) != []
  {
    TrimSpec(NameByKeys(PropsOf(f), CandidateKeys));
    NameByKeys(PropsOf(f), CandidateKeys)
  }

  lemma {:induction false} ScanPicks(props: Props, e: nat)
    requires e < |props| && Usable(props[e].1)
    requires forall i :: 0 <= i < e ==> !Usable(props[i].1)
    ensures ScanProps(props) == props[e].1.s
  {
    if e > 0 {
      assert !Usable(props[0].1);
      ScanPicks(props[1..], e - 1);
    }
  }

  lemma {:induction false} ScanEmptyIff(props: Props)
    ensures ScanProps(props) == [] <==> forall i :: 0 <= i < |props| ==> !Usable(props[i].1)
  {
    if props != [] && !Usable(props[0].1) {
      ScanEmptyIff(props[1..]);
      assert forall i :: 1 <= i < |props| ==> props[i] == props[1..][i - 1];
    }
  }

  lemma {:induction false} KeysPick(props: Props, keys: seq<string>, j: nat)
    requires j < |keys| && UsableAt(props, keys[j])
    requires forall i :: 0 <= i < j ==> !UsableAt(props, keys[i])
    ensures NameByKeys(props, keys) == Lookup(props, keys[j]).value.s
  {
    if j > 0 {
      assert !UsableAt(props, keys[0]);
      KeysPick(props, keys[1..], j - 1);
    }
  }

  lemma {:induction false} KeysFallThrough(props: Props, keys: seq<string>)
    requires forall i :: 0 <= i < |keys| ==> !UsableAt(props, keys[i])
    ensures NameByKeys(props, keys) == ScanProps(props)
  {
    if keys != [] {
      assert !UsableAt(props, keys[0]);
      KeysFallThrough(props, keys[1..]);
    }
  }

  /** A candidate key with a usable value wins when no earlier candidate has
      one, wherever it sits in the property order. */
  lemma NameFromCandidate(f: Feature, j: nat)
    requires j < |CandidateKeys|
    requires UsableAt(PropsOf(f), CandidateKeys[j])
    requires forall i :: 0 <= i < j ==> !UsableAt(PropsOf(f), CandidateKeys[i])
    ensures GetDistrictNameRaw(f) == Lookup(PropsOf(f), CandidateKeys[j]).value.s
  {
    KeysPick(PropsOf(f), CandidateKeys, j);
  }

  /** With no candidate key usable, the first non-blank string value in
      property order is taken. */
  lemma NameFromScan(f: Feature, e: nat)
    requires forall i :: 0 <= i < |CandidateKeys| ==> !UsableAt(PropsOf(f), CandidateKeys[i])
    requires e < |PropsOf(f)| && Usable(PropsOf(f)[e].1)
    requires forall i :: 0 <= i < e ==> !Usable(PropsOf(f)[i].1)
    ensures GetDistrictNameRaw(f) == PropsOf(f)[e].1.s
  {
    KeysFallThrough(PropsOf(f), CandidateKeys);
    ScanPicks(PropsOf(f), e);
  }

  /** The name is empty exactly when no property holds a non-blank string. */
  lemma {:induction false} KeysEmptyIff(props: Props, keys: seq<string>)
    ensures NameByKeys(props, keys) == [] <==> forall i :: 0 <= i < |props| ==> !Usable(props[i].1)
  {
    if keys == [] {
      ScanEmptyIff(props);
    } else if UsableAt(props, keys[0]) {
      var i := KeyIndex(props, keys[0]);
      assert Usable(props[i].1);
    } else {
      KeysEmptyIff(props, keys[1..]);
    }
  }

  lemma NameEmptyIff(f: Feature)
    ensures GetDistrictNameRaw(f) == [] <==> forall i :: 0 <= i < |PropsOf(f)| ==> !Usable(PropsOf(f)[i].1)
  {
    KeysEmptyIff(PropsOf(f), CandidateKeys);
  }

  // ---------------------------------------------------------------------------
  // The three layers
  // ---------------------------------------------------------------------------

  /** The covered districts as written in the component. */
  const CoveredDisplayNames: seq<string> := [
    "Bánovce nad Bebravou", "Galanta", "Handlová", "Ilava", "Myjava", "Nitra",
    "Nové Mesto nad Váhom", "Piešťany", "Považská Bystrica", "Púchov", "Trenčín", "Šaľa"]

  /** The western districts as written in the component. */
  const WestDisplayNames: seq<string> := [
    "Dunajská Streda", "Galanta", "Hlohovec", "Piešťany", "Senica", "Skalica", "Trnava",
    "Bánovce nad Bebravou", "Ilava", "Myjava", "Nové Mesto nad Váhom", "Partizánske",
    "Považská Bystrica", "Prievidza", "Púchov", "Trenčín", "Komárno", "Levice", "Nitra",
    "Nové Zámky", "Šaľa", "Topoľčany", "Zlaté Moravce", "Senec"]

  /** `.map(normalizeName)`. */
  function NormalizeAll(names: seq<string>): (r: seq<string>)
    ensures |r| == |names|
  {
    seq(|names|, i requires 0 <= i < |names| => Normalize(names[i]))
  }

  /** The three name lists the filters compare against, in canonical form. */
  datatype NameLists = NameLists(west: seq<string>, covered: seq<string>, bratislava: seq<string>)

  /** `bratislavaNames`: written already in canonical form and compared as is. */
  const BratislavaNames: seq<string> :=
    ["bratislava i", "bratislava ii", "bratislava iii", "bratislava iv", "bratislava v", "malacky", "pezinok"]

  /** The lists as the component configures them: `westNames` and
      `coveredNames` are the display names through `normalizeName`. */
  function Configured(): NameLists {
    NameLists(NormalizeAll(WestDisplayNames), NormalizeAll(CoveredDisplayNames), BratislavaNames)
  }

  /** The canonical name a feature is classified by. */
  function NameOf(f: Feature): string {
    Normalize(GetDistrictNameRaw(f))
  }

  datatype Layer = West | Covered | Bratislava

  /** Each filter's predicate on the canonical name; the west layer excludes
      the Bratislava names, the covered layer does not. */
  predicate Admits(names: NameLists, layer: Layer, n: string) {
    match layer
    case West => n in names.west && n !in names.bratislava
    case Covered => n in names.covered
    case Bratislava => n in names.bratislava
  }

  predicate Keeps(names: NameLists, layer: Layer, f: Feature) {
    Admits(names, layer, NameOf(f))
  }

  /** `r` can be obtained from `s` by deleting elements: an order-preserving
      sub-sequence. */
  predicate IsSubsequence(r: seq<Feature>, s: seq<Feature>)
    decreases |s|
  {
    if r == [] then true
    else if s == [] then false
    else (r[0] == s[0] && IsSubsequence(r[1..], s[1..])) || IsSubsequence(r, s[1..])
  }

  /** `features.filter(keep)`: an order-preserving sub-sequence. */
  function Filter(fs: seq<Feature>, keep: Feature -> bool): (r: seq<Feature>)
    ensures IsSubsequence(r, fs)
  {
    if fs == [] then []
    else
      var rest := Filter(fs[1..], keep);
      if keep(fs[0]) then
        assert ([fs[0]] + rest)[1..] == rest;
        [fs[0]] + rest
      else rest
  }

  /** The filter keeps every kept element as often as it occurs, and nothing
      else. */
  lemma {:induction false} FilterCounts(fs: seq<Feature>, keep: Feature -> bool)
    ensures forall x :: multiset(Filter(fs, keep))[x] == if keep(x) then multiset(fs)[x] else 0
  {
    if fs != [] {
      FilterCounts(fs[1..], keep);
      assert fs == [fs[0]] + fs[1..];
    }
  }

  /** `data.features.filter(...)` for one layer. */
  function SelectLayer(fs: seq<Feature>, names: NameLists, layer: Layer): seq<Feature> {
    Filter(fs, f => Keeps(names, layer, f))
  }

  /** Each layer is an order-preserving sub-sequence of the features holding
      exactly the admitted ones, each as often as it occurs. */
  lemma LayerContents(fs: seq<Feature>, names: NameLists, layer: Layer)
    ensures IsSubsequence(SelectLayer(fs, names, layer), fs)
    ensures forall x :: multiset(SelectLayer(fs, names, layer))[x] == if Keeps(names, layer, x) then multiset(fs)[x] else 0
    ensures forall x :: x in SelectLayer(fs, names, layer) <==> x in fs && Keeps(names, layer, x)
  {
    var keep := f => Keeps(names, layer, f);
    FilterCounts(fs, keep);
    forall x ensures x in SelectLayer(fs, names, layer) <==> x in fs && Keeps(names, layer, x) {
      assert x in SelectLayer(fs, names, layer) <==> multiset(SelectLayer(fs, names, layer))[x] > 0;
      assert x in fs <==> multiset(fs)[x] > 0;
    }
  }

  /** Membership in one layer, for one feature. */
  lemma LayerMember(fs: seq<Feature>, names: NameLists, layer: Layer, x: Feature)
    ensures x in SelectLayer(fs, names, layer) <==> x in fs && Keeps(names, layer, x)
  {
    LayerContents(fs, names, layer);
  }

  /** No feature is drawn both in the west layer and in the Bratislava layer. */
  lemma WestBratislavaDisjoint(fs: seq<Feature>, names: NameLists)
    ensures forall x :: x in SelectLayer(fs, names, West) ==> x !in SelectLayer(fs, names, Bratislava)
  {
    forall x | x in SelectLayer(fs, names, West) ensures x !in SelectLayer(fs, names, Bratislava) {
      LayerMember(fs, names, West, x);
      LayerMember(fs, names, Bratislava, x);
    }
  }

  predicate NoEmptyName(names: NameLists) {
    && (forall i :: 0 <= i < |names.west| ==> names.west[i] != [])
    && (forall i :: 0 <= i < |names.covered| ==> names.covered[i] != [])
    && (forall i :: 0 <= i < |names.bratislava| ==> names.bratislava[i] != [])
  }

  /** With no empty configured name, a feature without any usable name (raw
      name "") lands in no layer. */
  lemma UnnamedInNoLayer(fs: seq<Feature>, names: NameLists, f: Feature, layer: Layer)
    requires NoEmptyName(names)
    requires GetDistrictNameRaw(f) == []
    ensures f !in SelectLayer(fs, names, layer)
  {
    assert Trim([]) == [];
    assert NameOf(f) == [];
    LayerMember(fs, names, layer, f);
  }

  lemma NormalizeAllNonEmpty(names: seq<string>)
    requires forall i :: 0 <= i < |names| ==> CapitalInitial(names[i])
    ensures forall i :: 0 <= i < |NormalizeAll(names)| ==> NormalizeAll(names)[i] != []
  {
    forall i | 0 <= i < |names| ensures NormalizeAll(names)[i] != [] {
      CapitalNormalizesNonEmpty(names[i]);
    }
  }

  /** The normalised list holds each display name in canonical form. */
  lemma ListedAt(names: seq<string>, i: nat)
    requires i < |names|
    ensures Normalize(names[i]) in NormalizeAll(names)
  {
    assert NormalizeAll(names)[i] == Normalize(names[i]);
  }

  lemma ConfiguredWest()
    ensures Configured().west == NormalizeAll(WestDisplayNames)
  {
  }

  lemma ConfiguredCovered()
    ensures Configured().covered == NormalizeAll(CoveredDisplayNames)
  {
  }

  lemma ConfiguredBratislava()
    ensures Configured().bratislava == BratislavaNames
  {
  }

  lemma WestInitials()
    ensures forall i :: 0 <= i < |WestDisplayNames| ==> CapitalInitial(WestDisplayNames[i])
  {
  }

  lemma CoveredInitials()
    ensures forall i :: 0 <= i < |CoveredDisplayNames| ==> CapitalInitial(CoveredDisplayNames[i])
  {
  }

  /** A list obtained by normalising capitalised display names holds no
      empty name. */
  lemma NonEmptyFromDisplay(l: seq<string>, display: seq<string>)
    requires l == NormalizeAll(display)
    requires forall i :: 0 <= i < |display| ==> CapitalInitial(display[i])
    ensures forall i :: 0 <= i < |l| ==> l[i] != []
  {
    NormalizeAllNonEmpty(display);
  }

  lemma BratislavaListNonEmpty()
    ensures forall i :: 0 <= i < |BratislavaNames| ==> BratislavaNames[i] != []
  {
  }

  lemma WestNamesNonEmpty()
    ensures forall i :: 0 <= i < |Configured().west| ==> Configured().west[i] != []
  {
    ConfiguredWest();
    WestInitials();
    NonEmptyFromDisplay(Configured().west, WestDisplayNames);
  }

  lemma CoveredNamesNonEmpty()
    ensures forall i :: 0 <= i < |Configured().covered| ==> Configured().covered[i] != []
  {
    ConfiguredCovered();
    CoveredInitials();
    NonEmptyFromDisplay(Configured().covered, CoveredDisplayNames);
  }

  lemma BratislavaNamesNonEmpty()
    ensures forall i :: 0 <= i < |Configured().bratislava| ==> Configured().bratislava[i] != []
  {
    ConfiguredBratislava();
    BratislavaListNonEmpty();
  }

  /** Every configured name is non-empty once normalised, so (by
      `UnnamedInNoLayer`) a feature without a usable name is drawn in no layer. */
  lemma ConfiguredNamesNonEmpty()
    ensures NoEmptyName(Configured())
  {
    WestNamesNonEmpty();
    CoveredNamesNonEmpty();
    BratislavaNamesNonEmpty();
  }

  lemma FoldGalanta()
    ensures FoldAll("Galanta") == "galanta"
  {
    assert "Galanta"[1..] == "alanta";
    assert FoldChar('G') == "g";
    FoldAllFixed("alanta");
  }

  lemma GalantaUnstripped()
    ensures StripOkres("galanta") == "galanta"
  {
  }

  lemma GalantaUntrimmed()
    ensures Trim("galanta") == "galanta"
  {
  }

  lemma GalantaNormalized()
    ensures Normalize("Galanta") == "galanta"
  {
    FoldGalanta();
    GalantaUnstripped();
    GalantaUntrimmed();
  }

  lemma WestGalanta()
    ensures WestDisplayNames[1] == "Galanta"
  {
  }

  lemma CoveredGalanta()
    ensures CoveredDisplayNames[1] == "Galanta"
  {
  }

  /** A name whose display form is listed is in the normalised list. */
  lemma ListedVia(l: seq<string>, display: seq<string>, i: nat, d: string, n: string)
    requires l == NormalizeAll(display)
    requires i < |display| && display[i] == d && Normalize(d) == n
    ensures n in l
  {
    ListedAt(display, i);
  }

  lemma GalantaWest()
    ensures "galanta" in Configured().west
  {
    ConfiguredWest();
    WestGalanta();
    GalantaNormalized();
    ListedVia(Configured().west, WestDisplayNames, 1, "Galanta", "galanta");
  }

  lemma GalantaCovered()
    ensures "galanta" in Configured().covered
  {
    ConfiguredCovered();
    CoveredGalanta();
    GalantaNormalized();
    ListedVia(Configured().covered, CoveredDisplayNames, 1, "Galanta", "galanta");
  }

  lemma GalantaNotInBratislavaList()
    ensures "galanta" !in BratislavaNames
  {
  }

  lemma GalantaNotBratislava()
    ensures "galanta" !in Configured().bratislava
  {
    ConfiguredBratislava();
    GalantaNotInBratislavaList();
  }

  /** A feature whose name is on the west and the covered lists, and is not a
      Bratislava name, is drawn in both layers. */
  lemma InWestAndCovered(fs: seq<Feature>, names: NameLists, f: Feature)
    requires f in fs && NameOf(f) in names.west && NameOf(f) in names.covered
    requires NameOf(f) !in names.bratislava
    ensures f in SelectLayer(fs, names, West) && f in SelectLayer(fs, names, Covered)
  {
    LayerMember(fs, names, West, f);
    LayerMember(fs, names, Covered, f);
  }

  /** Galanta is in both configured lists and is not a Bratislava name, so a
      Galanta feature is drawn in the west layer and in the covered layer. */
  lemma GalantaInWestAndCovered(fs: seq<Feature>, f: Feature)
    requires f in fs && NameOf(f) == "galanta"
    ensures f in SelectLayer(fs, Configured(), West) && f in SelectLayer(fs, Configured(), Covered)
  {
    GalantaWest();
    GalantaCovered();
    GalantaNotBratislava();
    InWestAndCovered(fs, Configured(), f);
  }

  // ---------------------------------------------------------------------------
  // SetupPanes: the map's panes, each with its z-index
  // ---------------------------------------------------------------------------

  /** The Leaflet map's custom panes, by name, with the z-index of each. */
  type Panes = map<string, int>

  /** `ensure(name, z)`: a missing pane is created with z-index `z`; a pane
      that already exists is left as it is. */
  function EnsurePane(panes: Panes, name: string, z: int): Panes {
    if name in panes then panes else panes[name := z]
  }

  /** The three calls of the effect, in their order. */
  function SetupPanes(panes: Panes): Panes {
    EnsurePane(EnsurePane(EnsurePane(panes, "west", 399), "covered", 401), "nodrone", 405)
  }

  /** After `ensure` the pane exists; it has z-index `z` exactly when it was
      missing, and every other pane is untouched. */
  lemma EnsurePaneSpec(panes: Panes, name: string, z: int)
    ensures name in EnsurePane(panes, name, z)
    ensures EnsurePane(panes, name, z)[name] == if name in panes then panes[name] else z
    ensures EnsurePane(panes, name, z).Keys == panes.Keys + {name}
    ensures forall k :: k in panes && k != name ==> EnsurePane(panes, name, z)[k] == panes[k]
  {
  }

  /** Running the effect a second time changes nothing. */
  lemma SetupPanesIdempotent(panes: Panes)
    ensures SetupPanes(SetupPanes(panes)) == SetupPanes(panes)
  {
    var a := EnsurePane(panes, "west", 399);
    var b := EnsurePane(a, "covered", 401);
    var c := EnsurePane(b, "nodrone", 405);
    EnsurePaneSpec(panes, "west", 399);
    EnsurePaneSpec(a, "covered", 401);
    EnsurePaneSpec(b, "nodrone", 405);
    assert "west" in c && "covered" in c && "nodrone" in c;
  }

  /** The pane each layer is drawn in. */
  function PaneOf(layer: Layer): string {
    match layer
    case West => "west"
    case Covered => "covered"
    case Bratislava => "nodrone"
  }

  /** On a map without these panes, the covered layer is stacked above the
      west layer and the no-drone pane (Bratislava and the no-drone zones)
      above both; every pane the map already had keeps its z-index. */
  lemma SetupPanesOrder(panes: Panes)
    requires "west" !in panes && "covered" !in panes && "nodrone" !in panes
    ensures SetupPanes(panes)[PaneOf(West)] < SetupPanes(panes)[PaneOf(Covered)] < SetupPanes(panes)[PaneOf(Bratislava)]
    ensures forall k :: k in panes ==> k in SetupPanes(panes) && SetupPanes(panes)[k] == panes[k]
  {
    var a := EnsurePane(panes, "west", 399);
    var b := EnsurePane(a, "covered", 401);
    EnsurePaneSpec(panes, "west", 399);
    EnsurePaneSpec(a, "covered", 401);
    EnsurePaneSpec(b, "nodrone", 405);
  }

  // ---------------------------------------------------------------------------
  // The resize handler: breakpoints
  // ---------------------------------------------------------------------------

  /** `w < 640`. */
  predicate IsMobileWidth(w: int) {
    w < 640
  }

  /** `compute`'s height for a window width. */
  function MapHeight(w: int): int {
    if w < 640 then 380 else if w < 1024 then 500 else 600
  }

  /** The height is one of the three steps, grows with the width, and is the
      smallest step exactly on mobile widths. */
  lemma MapHeightSpec(w: int, w': int)
    ensures MapHeight(w) in {380, 500, 600}
    ensures w <= w' ==> MapHeight(w) <= MapHeight(w')
    ensures MapHeight(w) == 380 <==> IsMobileWidth(w)
    ensures MapHeight(w) == 600 <==> w >= 1024
  {
  }

  // ---------------------------------------------------------------------------
  // The component's state slots
  // ---------------------------------------------------------------------------

  /** How a `fetch` of a GeoJSON file settles: parsed features, a response
      that is not OK, or a thrown error with its message. */
  datatype Fetched = Loaded(features: seq<Feature>) | HttpError(status: nat) | Failed(message: string)

  /** The message of the error a settled fetch throws, if any. */
  function FetchError(outcome: Fetched): Option<string> {
    match outcome
    case Loaded(_) => None
    case HttpError(status) => Some("HTTP " + DecimalString(status))
    case Failed(message) => Some(message)
  }

  /** A non-OK response's message carries its status code, which can be read
      back from it. */
  lemma HttpErrorMessage(status: nat)
    ensures FetchError(HttpError(status)).Some?
    ensures |FetchError(HttpError(status)).value| > 5
    ensures FetchError(HttpError(status)).value[..5] == "HTTP "
    ensures DecimalValue(FetchError(HttpError(status)).value[5..]) == status
  {
    var m := "HTTP " + DecimalString(status);
    assert m[5..] == DecimalString(status);
    DecimalRoundTrip(status);
  }

  /** `MapCoverage`: its state slots, the two loads' `cancelled` flags and
      whether the resize listener is registered. */
  class CoverageMap {
    var mounted: bool
    var height: int
    var isMobile: bool
    var isLegendOpen: bool
    var westLayer: Option<seq<Feature>>
    var coveredLayer: Option<seq<Feature>>
    var bratislavaLayer: Option<seq<Feature>>
    var noDroneLayer: Option<seq<Feature>>
    var error: Option<string>
    var districtsCancelled: bool
    var noDroneCancelled: bool
    var listening: bool

    /** Once mounted, the flags agree with the height breakpoints. */
    predicate Valid()
      reads this
    {
      mounted ==> (isMobile <==> height == 380)
    }

    /** The initial `useState` values. */
    constructor ()
      ensures Valid()
      ensures !mounted && height == 380 && !isMobile && isLegendOpen
      ensures westLayer == None && coveredLayer == None && bratislavaLayer == None && noDroneLayer == None
      ensures error == None && !districtsCancelled && !noDroneCancelled && !listening
    {
      mounted := false;
      height := 380;
      isMobile := false;
      isLegendOpen := true;
      westLayer := None;
      coveredLayer := None;
      bratislavaLayer := None;
      noDroneLayer := None;
      error := None;
      districtsCancelled := false;
      noDroneCancelled := false;
      listening := false;
    }

    /** The mount effect: `setMounted(true)`, one `compute()` for the window
        width `w`, the listener registered; then the legend effect opens the
        legend on desktop and closes it on mobile. */
    method Mount(w: int)
      modifies this
      ensures Valid()
      ensures mounted && listening
      ensures height == MapHeight(w) && isMobile == IsMobileWidth(w)
      ensures isLegendOpen == !isMobile
      ensures westLayer == old(westLayer) && coveredLayer == old(coveredLayer)
      ensures bratislavaLayer == old(bratislavaLayer) && noDroneLayer == old(noDroneLayer)
      ensures error == old(error)
      ensures districtsCancelled == old(districtsCancelled) && noDroneCancelled == old(noDroneCancelled)
    {
      mounted := true;
      listening := true;
      isMobile := w < 640;
      if w < 640 {
        height := 380;
      } else if w < 1024 {
        height := 500;
      } else {
        height := 600;
      }
      isLegendOpen := !isMobile;
    }

    /** A `resize` event: `compute()` for the new width while the listener is
        registered. The legend effect runs only when `isMobile` changes, so
        the legend the user toggled stays as it is otherwise. */
    method Resize(w: int)
      requires Valid()
      modifies this
      ensures Valid()
      ensures old(listening) ==> height == MapHeight(w) && isMobile == IsMobileWidth(w)
      ensures old(listening) && isMobile != old(isMobile) ==> isLegendOpen == !isMobile
      ensures !old(listening) || isMobile == old(isMobile) ==> isLegendOpen == old(isLegendOpen)
      ensures !old(listening) ==> height == old(height) && isMobile == old(isMobile)
      ensures mounted == old(mounted) && listening == old(listening)
      ensures westLayer == old(westLayer) && coveredLayer == old(coveredLayer)
      ensures bratislavaLayer == old(bratislavaLayer) && noDroneLayer == old(noDroneLayer)
      ensures error == old(error)
      ensures districtsCancelled == old(districtsCancelled) && noDroneCancelled == old(noDroneCancelled)
    {
      if listening {
        var wasMobile := isMobile;
        isMobile := w < 640;
        height := MapHeight(w);
        if isMobile != wasMobile {
          isLegendOpen := !isMobile;
        }
      }
    }

    /** The "Legenda" button, shown on mobile only. */
    predicate LegendButtonShown()
      reads this
    {
      isMobile
    }

    /** The button's click flips the legend. */
    method ToggleLegend()
      modifies this
      ensures isLegendOpen == !old(isLegendOpen)
      ensures mounted == old(mounted) && height == old(height) && isMobile == old(isMobile)
      ensures westLayer == old(westLayer) && coveredLayer == old(coveredLayer)
      ensures bratislavaLayer == old(bratislavaLayer) && noDroneLayer == old(noDroneLayer)
      ensures error == old(error) && listening == old(listening)
      ensures districtsCancelled == old(districtsCancelled) && noDroneCancelled == old(noDroneCancelled)
    {
      isLegendOpen := !isLegendOpen;
    }

    /** The district load settles. Unless cancelled, a loaded collection is
        split into the three layers and clears the error; a failure records
        its message. Nothing is written after cancellation. */
    method DistrictsSettled(outcome: Fetched)
      modifies this
      ensures old(districtsCancelled) ==> unchanged(this)
      ensures !old(districtsCancelled) && outcome.Loaded? ==>
        && westLayer == Some(SelectLayer(outcome.features, Configured(), West))
        && coveredLayer == Some(SelectLayer(outcome.features, Configured(), Covered))
        && bratislavaLayer == Some(SelectLayer(outcome.features, Configured(), Bratislava))
        && error == None
      ensures !old(districtsCancelled) && !outcome.Loaded? ==>
        && error == FetchError(outcome)
        && westLayer == old(westLayer) && coveredLayer == old(coveredLayer)
        && bratislavaLayer == old(bratislavaLayer)
      ensures noDroneLayer == old(noDroneLayer) && mounted == old(mounted) && height == old(height)
      ensures isMobile == old(isMobile) && isLegendOpen == old(isLegendOpen) && listening == old(listening)
      ensures districtsCancelled == old(districtsCancelled) && noDroneCancelled == old(noDroneCancelled)
    {
      if !districtsCancelled {
        if outcome.Loaded? {
          var names := Configured();
          westLayer := Some(SelectLayer(outcome.features, names, West));
          coveredLayer := Some(SelectLayer(outcome.features, names, Covered));
          bratislavaLayer := Some(SelectLayer(outcome.features, names, Bratislava));
          error := None;
        } else {
          error := FetchError(outcome);
        }
      }
    }

    /** The no-drone load settles. Unless cancelled, a loaded collection is
        stored whole; a failure is recorded only when no error is recorded
        yet (`prev ?? message`). */
    method NoDroneSettled(outcome: Fetched)
      modifies this
      ensures old(noDroneCancelled) ==> unchanged(this)
      ensures !old(noDroneCancelled) && outcome.Loaded? ==>
        noDroneLayer == Some(outcome.features) && error == old(error)
      ensures !old(noDroneCancelled) && !outcome.Loaded? ==>
        noDroneLayer == old(noDroneLayer) && error == (if old(error).Some? then old(error) else FetchError(outcome))
      ensures old(error).Some? ==> error == old(error)
      ensures westLayer == old(westLayer) && coveredLayer == old(coveredLayer) && bratislavaLayer == old(bratislavaLayer)
      ensures mounted == old(mounted) && height == old(height) && isMobile == old(isMobile)
      ensures isLegendOpen == old(isLegendOpen) && listening == old(listening)
      ensures districtsCancelled == old(districtsCancelled) && noDroneCancelled == old(noDroneCancelled)
    {
      if !noDroneCancelled {
        match outcome
        case Loaded(fs) =>
          noDroneLayer := Some(fs);
        case HttpError(status) =>
          if error.None? {
            error := Some("HTTP " + DecimalString(status));
          }
        case Failed(message) =>
          if error.None? {
            error := Some(message);
          }
      }
    }

    /** The effects' clean-ups: both loads are cancelled and the resize
        listener is removed. */
    method Unmount()
      modifies this
      ensures districtsCancelled && noDroneCancelled && !listening
      ensures mounted == old(mounted) && height == old(height) && isMobile == old(isMobile)
      ensures isLegendOpen == old(isLegendOpen) && error == old(error)
      ensures westLayer == old(westLayer) && coveredLayer == old(coveredLayer)
      ensures bratislavaLayer == old(bratislavaLayer) && noDroneLayer == old(noDroneLayer)
    {
      districtsCancelled := true;
      noDroneCancelled := true;
      listening := false;
    }
  }
}
