/** The listing classifiers of backend/services/property_parser.py. The HTML
    is already reduced to text: `pageText` stands for `soup.get_text()` and
    `title` for the text of the first `h1` element, if the page has one. */
module PropertyParser {

  import opened Wrappers
  import opened TextUtil
  import opened Property

  const Unknown: string := "unknown"

  // ---------------------------------------------------------------------
  // extract_id_from_url: re.search(r'/(\d+)/?$', url)
  // ---------------------------------------------------------------------

  /** The regular expression `/(\d+)/?$` matches `url` capturing `d`. `$`
      matches at the end of the string or just before a final newline. */
  predicate IdMatches(url: string, d: string)
  {
    d != [] && AllDigits(d) &&
    (EndsWith(url, "/" + d) || EndsWith(url, "/" + d + "/") ||
     EndsWith(url, "/" + d + "\n") || EndsWith(url, "/" + d + "/\n"))
  }

  /** Length of the run of digits that ends just before index `e`. */
  function TrailingDigits(s: string, e: nat): (n: nat)
    requires e <= |s|
    ensures n <= e
    ensures forall i :: e - n <= i < e ==> IsDigit(s[i])
    ensures n < e ==> !IsDigit(s[e - n - 1])
    decreases e
  {
    if e == 0 || !IsDigit(s[e - 1]) then 0 else 1 + TrailingDigits(s, e - 1)
  }

  /** The capture for a text `u` that ends with a slash and digits. */
  function DigitTail(u: string): (r: Option<string>)
    ensures r.Some? ==> r.value != [] && AllDigits(r.value) && EndsWith(u, "/" + r.value)
  {
    var n := TrailingDigits(u, |u|);
    if 0 < n < |u| && u[|u| - n - 1] == '/' then
      assert u[|u| - n - 1..] == "/" + u[|u| - n..];
      Some(u[|u| - n..])
    else None
  }

  /** The capture for a text `t` that must end with the match (`$` at its
      very end): a slash, digits, then an optional slash. */
  function TailId(t: string): Option<string>
  {
    if EndsWith(t, "/") then DigitTail(t[..|t| - 1]) else DigitTail(t)
  }

  /** `extract_id_from_url`: the digits at the end of the URL, or "unknown". */
  function ExtractIdFromUrl(url: string): (r: string)
    ensures r != Unknown ==> IdMatches(url, r)
    ensures forall d :: IdMatches(url, d) ==> r == d
  {
    var t := if EndsWith(url, "\n") then url[..|url| - 1] else url;
    TailIdMatches(url, t);
    forall d | IdMatches(url, d) ensures TailId(t) == Some(d) {
      TailIdComplete(url, t, d);
    }
    match TailId(t)
    case Some(d) => d
    case None => Unknown
  }

  lemma {:induction false} TrailingDigitsExact(s: string, e: nat, k: nat)
    requires k <= e <= |s|
    requires forall i :: e - k <= i < e ==> IsDigit(s[i])
    requires k < e ==> !IsDigit(s[e - k - 1])
    ensures TrailingDigits(s, e) == k
    decreases k
  {
    if k > 0 {
      TrailingDigitsExact(s, e - 1, k - 1);
    }
  }

  lemma TailIdSound(t: string)
    ensures TailId(t).Some? ==>
      var d := TailId(t).value;
      d != [] && AllDigits(d) && (EndsWith(t, "/" + d) || EndsWith(t, "/" + d + "/"))
  {
    if EndsWith(t, "/") && DigitTail(t[..|t| - 1]).Some? {
      var u := t[..|t| - 1];
      var d := DigitTail(u).value;
      assert t == u + "/";
      AppendChar(u, "/" + d, '/');
    }
  }

  lemma AppendChar(u: string, x: string, c: char)
    ensures EndsWith(u, x) ==> EndsWith(u + [c], x + [c])
    ensures EndsWith(u + [c], x + [c]) ==> EndsWith(u, x)
  {
    if |x| <= |u| {
      assert (u + [c])[|u| + 1 - (|x| + 1)..] == u[|u| - |x|..] + [c];
      assert (u[|u| - |x|..] + [c])[..|x|] == u[|u| - |x|..];
      assert (x + [c])[..|x|] == x;
    }
  }

  /** `u` ends with a slash and the digits `d`, so `DigitTail` captures `d`. */
  lemma DigitTailOf(u: string, d: string)
    requires d != [] && AllDigits(d)
    requires EndsWith(u, "/" + d)
    ensures DigitTail(u) == Some(d)
  {
    var n := |d|;
    assert forall i :: |u| - n <= i < |u| ==> u[i] == ("/" + d)[i - (|u| - n - 1)];
    assert u[|u| - n - 1] == ("/" + d)[0];
    TrailingDigitsExact(u, |u|, n);
    assert u[|u| - n..] == d;
  }

  /** A text that ends with the match yields its capture. */
  lemma TailIdOf(t: string, d: string)
    requires d != [] && AllDigits(d)
    requires EndsWith(t, "/" + d) || EndsWith(t, "/" + d + "/")
    ensures TailId(t) == Some(d)
  {
    var n := |d|;
    if EndsWith(t, "/" + d + "/") {
      var u := t[..|t| - 1];
      assert t == u + "/";
      AppendChar(u, "/" + d, '/');
      DigitTailOf(u, d);
    } else {
      assert t[|t| - 1] == ("/" + d)[n];
      DigitTailOf(t, d);
    }
  }

  lemma TailIdMatches(url: string, t: string)
    requires t == if EndsWith(url, "\n") then url[..|url| - 1] else url
    ensures TailId(t).Some? ==> IdMatches(url, TailId(t).value)
  {
    TailIdSound(t);
    if EndsWith(url, "\n") && TailId(t).Some? {
      assert url == t + "\n";
      AppendChar(t, "/" + TailId(t).value, '\n');
      AppendChar(t, "/" + TailId(t).value + "/", '\n');
    }
  }

  /** The last character of a string that ends with `x + [c]` is `c`. */
  lemma LastChar(url: string, x: string, c: char)
    requires EndsWith(url, x + [c])
    ensures url != [] && url[|url| - 1] == c
  {
    assert url[|url| - 1] == (x + [c])[|x|];
  }

  lemma TailIdComplete(url: string, t: string, d: string)
    requires t == if EndsWith(url, "\n") then url[..|url| - 1] else url
    requires IdMatches(url, d)
    ensures TailId(t) == Some(d)
  {
    if EndsWith(url, "\n") {
      NewlineCase(url, t, d);
    } else {
      assert !EndsWith(url, "/" + d + "\n") by {
        if EndsWith(url, "/" + d + "\n") { LastChar(url, "/" + d, '\n'); }
      }
      assert "/" + d + "/\n" == ("/" + d + "/") + ['\n'];
      assert !EndsWith(url, "/" + d + "/\n") by {
        if EndsWith(url, "/" + d + "/\n") { LastChar(url, "/" + d + "/", '\n'); }
      }
      TailIdOf(t, d);
    }
  }

  lemma NewlineCase(url: string, t: string, d: string)
    requires EndsWith(url, "\n") && t == url[..|url| - 1]
    requires IdMatches(url, d)
    ensures TailId(t) == Some(d)
  {
    var n := |d|;
    assert url == t + "\n";
    assert url[|url| - 1] == '\n';
    var init, last := "/" + d[..n - 1], d[n - 1];
    assert "/" + d == init + [last];
    assert !EndsWith(url, "/" + d) by {
      if EndsWith(url, "/" + d) { LastChar(url, init, last); }
    }
    assert !EndsWith(url, "/" + d + "/") by {
      if EndsWith(url, "/" + d + "/") { LastChar(url, "/" + d, '/'); }
    }
    AppendChar(t, "/" + d, '\n');
    AppendChar(t, "/" + d + "/", '\n');
    assert "/" + d + "/\n" == ("/" + d + "/") + ['\n'];
    TailIdOf(t, d);
  }

  // ---------------------------------------------------------------------
  // Priority-ordered keyword classifiers
  // ---------------------------------------------------------------------

  /** One `if` of a classifier chain: when any keyword occurs, the label. */
  datatype KeywordRule = KeywordRule(keywords: seq<string>, result: string)

  predicate Fires(text: string, rule: KeywordRule)
  {
    exists k :: k in rule.keywords && Contains(text, k)
  }

  /** The label of the first rule that fires on `text`, if any. */
  function FirstFiring(text: string, rules: seq<KeywordRule>): (r: Option<string>)
    ensures r.None? <==> forall i :: 0 <= i < |rules| ==> !Fires(text, rules[i])
    ensures r.Some? ==> exists i :: 0 <= i < |rules| && Fires(text, rules[i]) && rules[i].result == r.value &&
                           forall j :: 0 <= j < i ==> !Fires(text, rules[j])
  {
    if rules == [] then None
    else if Fires(text, rules[0]) then Some(rules[0].result)
    else
      var r := FirstFiring(text, rules[1..]);
      assert forall i :: 1 <= i < |rules| ==> rules[i] == rules[1..][i - 1];
      r
  }

  /** The order in which `extract_property_type` tests the keywords. */
  const TypeRules: seq<KeywordRule> := [
    KeywordRule(["villa"], "villa"),
    KeywordRule(["condo", "apartment"], "condo"),
    KeywordRule(["house"], "house"),
    KeywordRule(["land"], "land")]

  /** The order in which `extract_ownership_type` tests the phrases. */
  const OwnershipRules: seq<KeywordRule> := [
    KeywordRule(["hard title"], "hard_title"),
    KeywordRule(["soft title"], "soft_title"),
    KeywordRule(["strata title"], "strata_title")]

  /** One pass of the type chain over an already lowercased text. */
  function TypeKeyword(t: string): Option<string>
  {
    if Contains(t, "villa") then Some("villa")
    else if Contains(t, "condo") || Contains(t, "apartment") then Some("condo")
    else if Contains(t, "house") then Some("house")
    else if Contains(t, "land") then Some("land")
    else None
  }

  /** `extract_property_type`: the URL first, then the `h1` title. */
  function ExtractPropertyType(url: string, title: Option<string>): (r: string)
    ensures r in {"villa", "condo", "house", "land", Unknown}
  {
    match TypeKeyword(Lower(url))
    case Some(k) => k
    case None =>
      if title.Some? then
        match TypeKeyword(Lower(title.value))
        case Some(k) => k
        case None => Unknown
      else Unknown
  }

  /** The `if` chain is the rule table read in order. */
  lemma TypeKeywordByRules(t: string)
    ensures TypeKeyword(t) == FirstFiring(t, TypeRules)
  {
    var r0, r1, r2, r3 := TypeRules[0], TypeRules[1], TypeRules[2], TypeRules[3];
    assert Fires(t, r0) <==> Contains(t, "villa") by { assert r0.keywords == ["villa"]; }
    assert Fires(t, r1) <==> Contains(t, "condo") || Contains(t, "apartment") by {
      assert r1.keywords == ["condo", "apartment"];
      assert Contains(t, "apartment") ==> "apartment" in r1.keywords;
    }
    assert Fires(t, r2) <==> Contains(t, "house") by { assert r2.keywords == ["house"]; }
    assert Fires(t, r3) <==> Contains(t, "land") by { assert r3.keywords == ["land"]; }
    assert TypeRules[1..][1..][1..][1..] == [];
  }

  /** The type is read from the URL whenever any keyword occurs in it; the
      title is not consulted then. Otherwise the title decides, and with
      no keyword in either the result is "unknown". */
  lemma PropertyTypeUrlFirst(url: string, title: Option<string>)
    ensures FirstFiring(Lower(url), TypeRules).Some? ==>
      ExtractPropertyType(url, title) == FirstFiring(Lower(url), TypeRules).value
    ensures FirstFiring(Lower(url), TypeRules).None? && title.Some? && FirstFiring(Lower(title.value), TypeRules).Some? ==>
      ExtractPropertyType(url, title) == FirstFiring(Lower(title.value), TypeRules).value
    ensures ExtractPropertyType(url, title) == Unknown <==>
      FirstFiring(Lower(url), TypeRules).None? && (title.Some? ==> FirstFiring(Lower(title.value), TypeRules).None?)
  {
    TypeKeywordByRules(Lower(url));
    if title.Some? {
      TypeKeywordByRules(Lower(title.value));
    }
  }

  /** Priority: a URL naming both a villa and a condo is a villa, and one
      naming a house and land is a house. */
  lemma PropertyTypePriority(url: string, title: Option<string>)
    ensures Contains(Lower(url), "villa") ==> ExtractPropertyType(url, title) == "villa"
    ensures !Contains(Lower(url), "villa") && Contains(Lower(url), "apartment") ==> ExtractPropertyType(url, title) == "condo"
    ensures (!Contains(Lower(url), "villa") && !Contains(Lower(url), "condo") &&
             !Contains(Lower(url), "apartment") && Contains(Lower(url), "house"))
            ==> ExtractPropertyType(url, title) == "house"
    ensures TypeKeyword(Lower(url)).None? ==> ExtractPropertyType(url, title) == ExtractPropertyType("", title)
  {
    assert Lower("") == "";
    assert forall k: string :: k != [] ==> !Contains("", k);
  }

  /** `extract_ownership_type` over the lowercased page text. */
  function ExtractOwnershipType(pageText: string): (r: Option<string>)
    ensures r.Some? ==> r.value in {"hard_title", "soft_title", "strata_title"}
  {
    var t := Lower(pageText);
    if Contains(t, "hard title") then Some("hard_title")
    else if Contains(t, "soft title") then Some("soft_title")
    else if Contains(t, "strata title") then Some("strata_title")
    else None
  }

  /** The ownership chain is the first firing rule of its table: the first of
      hard, soft and strata title whose phrase occurs, else nothing. */
  lemma OwnershipByRules(pageText: string)
    ensures ExtractOwnershipType(pageText) == FirstFiring(Lower(pageText), OwnershipRules)
  {
    var t := Lower(pageText);
    var r0, r1, r2 := OwnershipRules[0], OwnershipRules[1], OwnershipRules[2];
    assert Fires(t, r0) <==> Contains(t, "hard title") by { assert r0.keywords == ["hard title"]; }
    assert Fires(t, r1) <==> Contains(t, "soft title") by { assert r1.keywords == ["soft title"]; }
    assert Fires(t, r2) <==> Contains(t, "strata title") by { assert r2.keywords == ["strata title"]; }
    assert OwnershipRules[1..][1..][1..] == [];
  }

  // ---------------------------------------------------------------------
  // Regular-expression searches for a number
  // ---------------------------------------------------------------------

  /** The two shapes searched for: `(\d+)\s*<word>` (a count before a word)
      and `<word>[:\s]+(\d+)` (a number after a word). */
  datatype NumberPattern = CountBefore(word: string) | NumberAfter(word: string)

  /** The first index at or after `i` where the predicate fails. */
  function DigitsEnd(s: string, i: nat): (e: nat)
    requires i <= |s|
    ensures i <= e <= |s| && (e < |s| ==> !IsDigit(s[e]))
    ensures forall j :: i <= j < e ==> IsDigit(s[j])
    decreases |s| - i
  {
    if i == |s| || !IsDigit(s[i]) then i else DigitsEnd(s, i + 1)
  }

  function SpacesEnd(s: string, i: nat): (e: nat)
    requires i <= |s|
    ensures i <= e <= |s| && (e < |s| ==> !IsSpace(s[e]))
    ensures forall j :: i <= j < e ==> IsSpace(s[j])
    decreases |s| - i
  {
    if i == |s| || !IsSpace(s[i]) then i else SpacesEnd(s, i + 1)
  }

  predicate IsSeparator(c: char)
  {
    c == ':' || IsSpace(c)
  }

  function SeparatorsEnd(s: string, i: nat): (e: nat)
    requires i <= |s|
    ensures i <= e <= |s| && (e < |s| ==> !IsSeparator(s[e]))
    ensures forall j :: i <= j < e ==> IsSeparator(s[j])
    decreases |s| - i
  {
    if i == |s| || !IsSeparator(s[i]) then i else SeparatorsEnd(s, i + 1)
  }

  /** The capture of a match that starts at index `p`, if one does. The
      greedy runs need no backtracking: a shorter digit run is followed by a
      digit, which neither a space, a colon nor the word's letter can match. */
  function MatchAt(pat: NumberPattern, s: string, p: nat): (r: Option<string>)
    requires p <= |s|
    ensures r.Some? ==> r.value != [] && AllDigits(r.value)
  {
    match pat
    case CountBefore(word) =>
      var e := DigitsEnd(s, p);
      if e == p then None
      else if StartsWith(s[SpacesEnd(s, e)..], word) then Some(s[p..e])
      else None
    case NumberAfter(word) =>
      if !StartsWith(s[p..], word) then None
      else
        var g := SeparatorsEnd(s, p + |word|);
        var h := DigitsEnd(s, g);
        if g == p + |word| || h == g then None else Some(s[g..h])
  }

  /** Where `re.search` finds its match: the leftmost position at or after
      `p` where `pat` matches, or `|s| + 1` when it matches nowhere. */
  function FirstMatch(pat: NumberPattern, s: string, p: nat): (q: nat)
    requires p <= |s|
    ensures p <= q <= |s| + 1
    ensures q <= |s| ==> MatchAt(pat, s, q).Some?
    ensures forall q' :: p <= q' < q && q' <= |s| ==> MatchAt(pat, s, q').None?
    decreases |s| - p
  {
    if MatchAt(pat, s, p).Some? then p
    else if p == |s| then |s| + 1
    else FirstMatch(pat, s, p + 1)
  }

  /** `re.search`: the capture of the leftmost match at or after `p`. */
  function SearchFrom(pat: NumberPattern, s: string, p: nat): (r: Option<string>)
    requires p <= |s|
    ensures r.Some? ==> exists q :: p <= q <= |s| && MatchAt(pat, s, q) == r &&
                          forall q' :: p <= q' < q ==> MatchAt(pat, s, q').None?
    ensures r.None? ==> forall q :: p <= q <= |s| ==> MatchAt(pat, s, q).None?
  {
    var q := FirstMatch(pat, s, p);
    if q <= |s| then MatchAt(pat, s, q) else None
  }

  /** Python's `int` of a run of ASCII digits. */
  function DecimalValue(d: string): (n: nat)
    requires AllDigits(d)
  {
    if d == [] then 0 else 10 * DecimalValue(d[..|d| - 1]) + (d[|d| - 1] - '0') as nat
  }

  /** Leading zeros do not change the value; the value is below 10^|d|. */
  lemma {:induction false} DecimalValueBound(d: string)
    requires AllDigits(d)
    ensures DecimalValue(d) < Pow10(|d|)
    ensures DecimalValue("0" + d) == DecimalValue(d)
  {
    if d != [] {
      var init := d[..|d| - 1];
      DecimalValueBound(init);
      assert ("0" + d)[..|d|] == "0" + init;
    }
  }

  function Pow10(n: nat): (p: nat)
    ensures p >= 1
  {
    if n == 0 then 1 else 10 * Pow10(n - 1)
  }

  /** `r` is `int` of the capture of the leftmost match of `pat` in `s`, or
      None when `pat` matches nowhere. */
  predicate LeftmostNumber(pat: NumberPattern, s: string, r: Option<nat>)
  {
    (r.None? <==> forall q :: 0 <= q <= |s| ==> MatchAt(pat, s, q).None?) &&
    (r.Some? ==> exists q :: 0 <= q <= |s| && MatchAt(pat, s, q).Some? &&
                   r.value == DecimalValue(MatchAt(pat, s, q).value) &&
                   forall q' :: 0 <= q' < q ==> MatchAt(pat, s, q').None?)
  }

  /** `re.search(pattern, text.lower())` followed by `int(match.group(1))`. */
  function SearchNumber(pat: NumberPattern, text: string): (r: Option<nat>)
    ensures LeftmostNumber(pat, Lower(text), r)
  {
    match SearchFrom(pat, Lower(text), 0)
    case Some(d) => Some(DecimalValue(d))
    case None => None
  }

  /** `extract_bedrooms`: the leftmost count written before "bed". */
  function ExtractBedrooms(pageText: string): (r: Option<nat>)
    ensures LeftmostNumber(CountBefore("bed"), Lower(pageText), r)
  {
    SearchNumber(CountBefore("bed"), pageText)
  }

  /** `extract_bathrooms`: the leftmost count written before "bath". */
  function ExtractBathrooms(pageText: string): (r: Option<nat>)
    ensures LeftmostNumber(CountBefore("bath"), Lower(pageText), r)
  {
    SearchNumber(CountBefore("bath"), pageText)
  }

  /** The whole leading digit run is the count, and the text is lowercased
      first: "12 Bed" has twelve bedrooms. */
  lemma BedroomsExample()
    ensures ExtractBedrooms("12 Bed") == Some(12)
  {
    var s := Lower("12 Bed");
    assert s == "12 bed";
    assert DigitsEnd(s, 0) == 2;
    assert SpacesEnd(s, 2) == 3;
    assert s[3..] == "bed";
    assert StartsWith(s[3..], "bed");
    assert s[0..2] == "12";
    assert MatchAt(CountBefore("bed"), s, 0) == Some("12");
    assert SearchFrom(CountBefore("bed"), s, 0) == Some("12");
    assert DecimalValue("12") == 12 by { assert "12"[..1] == "1"; assert "1"[..0] == []; }
  }

  /** `extract_floor_level`: only a condo has one; for a condo it is the
      leftmost number written after "floor" and colons or spaces. */
  function ExtractFloorLevel(pageText: string, propertyType: string): (r: Option<nat>)
    ensures propertyType != "condo" ==> r.None?
    ensures propertyType == "condo" ==> LeftmostNumber(NumberAfter("floor"), Lower(pageText), r)
  {
    if propertyType != "condo" then None else SearchNumber(NumberAfter("floor"), pageText)
  }

  // ---------------------------------------------------------------------
  // get_fallback_property_data
  // ---------------------------------------------------------------------

  const VillaId: string := "258405"

  /** The record used when a listing cannot be parsed: the hard-coded villa
      when the URL mentions its id, otherwise a record with the id taken
      from the URL, type "unknown" and every other field at its default. */
  method GetFallbackPropertyData(url: string) returns (p: PropertyData)
    ensures fresh(p) && p.url == url
    ensures Contains(url, VillaId) ==>
      p.id == VillaId && p.propertyType == "villa" &&
      p.priceUsd == Some(575000.0) && p.bedrooms == Some(5) && p.bathrooms == Some(6) &&
      p.sizeSqm == Some(375.0) && p.landSizeSqm == Some(250.0) &&
      p.ownershipType == Some("hard_title") && p.floorLevel.None? &&
      p.location == Some("Borey Peng Huoth: The Star Platinum Mastery") &&
      p.DerivedFields() == Derived(true, false, ["leasehold", "company_structure"])
    ensures !Contains(url, VillaId) ==>
      p.id == ExtractIdFromUrl(url) && p.propertyType == Unknown &&
      p.priceUsd.None? && p.bedrooms.None? && p.bathrooms.None? &&
      p.sizeSqm.None? && p.landSizeSqm.None? && p.ownershipType.None? &&
      p.floorLevel.None? && p.location.None? &&
      p.DerivedFields() == Derived(false, false, [])
  {
    var propertyId := ExtractIdFromUrl(url);
    if Contains(url, VillaId) {
      p := new PropertyData(VillaId, url, "villa", Some(575000.0), Some(5), Some(6),
                            Some(375.0), Some(250.0), Some("hard_title"), None,
                            Some("Borey Peng Huoth: The Star Platinum Mastery"),
                            true, false, ["leasehold", "company_structure"]);
      return;
    }
    p := new PropertyData(propertyId, url, Unknown);
  }

  /** The hard-coded villa record already carries what `compute_eligibility`
      would derive for a villa. */
  lemma FallbackVillaIsConsistent(d: Derived)
    requires d == Derived(true, false, ["leasehold", "company_structure"])
    ensures Apply(RuleFor("villa", None), d) == d
  {
  }
}
