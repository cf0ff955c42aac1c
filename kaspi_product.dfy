/**
 * Model of `parse_kaspi_product_with_bs` in src/services/kaspi_parser.py: the page is given as
 * the parts BeautifulSoup reads from it (the `h1` text, the `img` tags, the specification
 * groups and the page-wide `dl` pairs); the rating, offers and category requests are given as
 * the inputs of their own models. The result dictionary becomes `ScrapeResult`, and an
 * exception that escapes the function becomes an `Err`.
 */
module KaspiProduct {
  import opened Wrappers
  import opened Text
  import opened Utils
  import KaspiOffers
  import KaspiRating
  import KaspiCategory

  // ===========================================================================
  // Images
  // ===========================================================================

  /** The attributes of one `<img>` tag the parser reads; `None` where the attribute is absent. */
  datatype ImgTag = ImgTag(src: Option<string>, dataSrc: Option<string>, dataLazy: Option<string>)

  const HttpPrefix: string := "http"
  const QueryMark: char := '?'

  /** Python's `x or y` on an optional string: `x` when it is a non-empty string, else `y`. */
  function OrElse(x: Option<string>, y: Option<string>): Option<string> {
    if x.Some? && x.value != [] then x else y
  }

  /** `src or data-src or data-lazy`: the first of the three that is a non-empty string. */
  function ImageSource(img: ImgTag): (s: Option<string>)
    ensures img.src.Some? && img.src.value != [] ==> s == img.src
    ensures s.Some? && s.value != [] ==> s == img.src || s == img.dataSrc || s == img.dataLazy
    ensures !(img.src.Some? && img.src.value != []) && img.dataSrc.Some? && img.dataSrc.value != [] ==>
              s == img.dataSrc
    ensures !(img.src.Some? && img.src.value != []) && !(img.dataSrc.Some? && img.dataSrc.value != []) ==>
              s == img.dataLazy
  {
    OrElse(OrElse(img.src, img.dataSrc), img.dataLazy)
  }

  predicate StartsWithHttp(s: string) {
    |s| >= |HttpPrefix| && s[..|HttpPrefix|] == HttpPrefix
  }

  /** The index of the first `?` in `s` at or after `i`, or `|s|`. */
  function QueryStart(s: string, i: nat): (j: nat)
    requires i <= |s|
    ensures i <= j <= |s|
    ensures forall k :: i <= k < j ==> s[k] != QueryMark
    ensures j < |s| ==> s[j] == QueryMark
    ensures j == |s| || QueryMark in s
    decreases |s| - i
  {
    if i == |s| then i
    else if s[i] == QueryMark then
      assert s[i] in s;
      i
    else QueryStart(s, i + 1)
  }

  /** `s.split("?")[0]`: everything before the first `?`. */
  function BeforeQuery(s: string): (r: string)
    ensures QueryMark !in r
    ensures |r| <= |s| && r == s[..|r|]
    ensures QueryMark !in s ==> r == s
  {
    var j := QueryStart(s, 0);
    assert forall c :: c in s[..j] ==> c != QueryMark;
    if QueryMark !in s then s else s[..j]
  }

  /** The URL an `<img>` contributes: its source without the query, when it starts with `http`. */
  function ImageUrl(img: ImgTag): Option<string> {
    var src := ImageSource(img);
    if src.Some? && src.value != [] && StartsWithHttp(src.value) then Some(BeforeQuery(src.value)) else None
  }

  /** The image URLs of the first `n` tags. */
  function ImagesOf(imgs: seq<ImgTag>, n: nat): set<string>
    requires n <= |imgs|
  {
    set i | 0 <= i < n && ImageUrl(imgs[i]).Some? :: ImageUrl(imgs[i]).value
  }

  /** The set `imgs` built from every tag of the page. */
  function Images(imgs: seq<ImgTag>): set<string> {
    ImagesOf(imgs, |imgs|)
  }

  lemma ImagesOfStep(imgs: seq<ImgTag>, n: nat)
    requires n < |imgs|
    ensures ImagesOf(imgs, n + 1) ==
            ImagesOf(imgs, n) + (if ImageUrl(imgs[n]).Some? then {ImageUrl(imgs[n]).value} else {})
  {
    var lhs := ImagesOf(imgs, n + 1);
    var rhs := ImagesOf(imgs, n) + (if ImageUrl(imgs[n]).Some? then {ImageUrl(imgs[n]).value} else {});
    forall u | u in lhs ensures u in rhs {
      var i :| 0 <= i < n + 1 && ImageUrl(imgs[i]).Some? && ImageUrl(imgs[i]).value == u;
      if i < n {
        assert u in ImagesOf(imgs, n);
      }
    }
    forall u | u in rhs ensures u in lhs {
      if u in ImagesOf(imgs, n) {
        var i :| 0 <= i < n && ImageUrl(imgs[i]).Some? && ImageUrl(imgs[i]).value == u;
        assert ImageUrl(imgs[i]).value in lhs;
      } else {
        assert ImageUrl(imgs[n]).value in lhs;
      }
    }
  }

  /** The loop over `soup.find_all("img")` that fills the set `imgs`. */
  method CollectImages(imgs: seq<ImgTag>) returns (images: set<string>)
    ensures images == Images(imgs)
  {
    images := {};
    var i := 0;
    while i < |imgs|
      invariant 0 <= i <= |imgs|
      invariant images == ImagesOf(imgs, i)
    {
      ImagesOfStep(imgs, i);
      var src := OrElse(OrElse(imgs[i].src, imgs[i].dataSrc), imgs[i].dataLazy);
      if src.Some? && src.value != [] && StartsWithHttp(src.value) {
        images := images + {BeforeQuery(src.value)};
      }
      i := i + 1;
    }
  }

  /** Cutting the query keeps the `http` prefix. */
  lemma BeforeQueryKeepsHttp(s: string)
    requires StartsWithHttp(s)
    ensures StartsWithHttp(BeforeQuery(s))
  {
    var j := QueryStart(s, 0);
    assert forall k :: 0 <= k < |HttpPrefix| ==> s[k] == HttpPrefix[k];
    assert j >= |HttpPrefix|;
    assert BeforeQuery(s)[..|HttpPrefix|] == s[..|HttpPrefix|];
  }

  /** Every collected image URL starts with `http` and carries no query string. */
  lemma ImagesAreBareHttp(imgs: seq<ImgTag>, u: string)
    requires u in Images(imgs)
    ensures StartsWithHttp(u) && QueryMark !in u
    ensures exists i :: 0 <= i < |imgs| && ImageSource(imgs[i]).Some? && u == BeforeQuery(ImageSource(imgs[i]).value)
  {
    var i :| 0 <= i < |imgs| && ImageUrl(imgs[i]).Some? && ImageUrl(imgs[i]).value == u;
    BeforeQueryKeepsHttp(ImageSource(imgs[i]).value);
  }

  /** Two tags whose sources differ only after the `?` give one image. */
  lemma QueryVariantsCollapse(base: string, q1: string, q2: string)
    requires StartsWithHttp(base) && QueryMark !in base
    ensures Images([ImgTag(Some(base + [QueryMark] + q1), None, None),
                    ImgTag(Some(base + [QueryMark] + q2), None, None)]) == {base}
  {
    var imgs := [ImgTag(Some(base + [QueryMark] + q1), None, None),
                 ImgTag(Some(base + [QueryMark] + q2), None, None)];
    forall q | true ensures BeforeQuery(base + [QueryMark] + q) == base {
      QueryAfterBase(base, q);
    }
    assert ImageUrl(imgs[0]) == Some(base) by {
      assert (base + [QueryMark] + q1)[..|HttpPrefix|] == base[..|HttpPrefix|];
    }
    assert ImageUrl(imgs[1]) == Some(base) by {
      assert (base + [QueryMark] + q2)[..|HttpPrefix|] == base[..|HttpPrefix|];
    }
    assert base in Images(imgs) by { assert ImageUrl(imgs[0]).value in Images(imgs); }
  }

  lemma QueryAfterBase(base: string, q: string)
    requires QueryMark !in base
    ensures BeforeQuery(base + [QueryMark] + q) == base
  {
    var s := base + [QueryMark] + q;
    var j := QueryStart(s, 0);
    assert s[|base|] == QueryMark;
    forall k | 0 <= k < |base| ensures s[k] != QueryMark {
      assert s[k] == base[k];
      assert base[k] in base;
    }
    assert j == |base|;
    assert QueryMark in s by { assert s[|base|] in s; }
    assert s[..|base|] == base;
  }

  // ===========================================================================
  // Attribute pairs
  // ===========================================================================

  /** One `div.specifications__group`: its `h3` text if it has one, its `dt` and `dd` texts. */
  datatype SpecGroup = SpecGroup(heading: Option<string>, keys: seq<string>, vals: seq<string>)

  /** The name of a group without an `h3`. */
  const GeneralGroupName: string := "Общие"
  /** The section fallback pairs not yet present would be added to. */
  const OtherGroupName: string := "Другие"
  /** Groups whose lower-cased name starts with this are left out. */
  const GeneralPrefix: string := "общ"

  function Min(a: nat, b: nat): nat {
    if a <= b then a else b
  }

  /** The dictionary built from the first `n` `(dt, dd)` pairs; pairs with an empty key are skipped. */
  function PairsUpTo(keys: seq<string>, vals: seq<string>, n: nat): (m: map<string, string>)
    requires n <= |keys| && n <= |vals|
  {
    if n == 0 then map[]
    else
      var m := PairsUpTo(keys, vals, n - 1);
      if keys[n - 1] != [] then m[keys[n - 1] := vals[n - 1]] else m
  }

  /**
   * A key is in the dictionary exactly when it is a non-empty key among the first `n`, and its
   * value is the one paired with its last occurrence.
   */
  lemma {:induction false} PairsUpToSpec(keys: seq<string>, vals: seq<string>, n: nat)
    requires n <= |keys| && n <= |vals|
    ensures forall k :: k in PairsUpTo(keys, vals, n) <==> k != [] && exists i :: 0 <= i < n && keys[i] == k
    ensures forall i :: 0 <= i < n && keys[i] != [] && (forall j :: i < j < n ==> keys[j] != keys[i]) ==>
              keys[i] in PairsUpTo(keys, vals, n) && PairsUpTo(keys, vals, n)[keys[i]] == vals[i]
  {
    if n > 0 {
      PairsUpToSpec(keys, vals, n - 1);
    }
  }

  /** `zip(dts, dds)` into a dictionary: the pairs up to the shorter list, the last value per key. */
  function Pairs(keys: seq<string>, vals: seq<string>): map<string, string> {
    PairsUpTo(keys, vals, Min(|keys|, |vals|))
  }

  /** The loop `for dt, dd in zip(keys, vals): if key: d[key] = val`. */
  method CollectPairs(keys: seq<string>, vals: seq<string>) returns (m: map<string, string>)
    ensures m == Pairs(keys, vals)
  {
    m := map[];
    var n := Min(|keys|, |vals|);
    var i := 0;
    while i < n
      invariant 0 <= i <= n
      invariant m == PairsUpTo(keys, vals, i)
    {
      var key, val := keys[i], vals[i];
      if key != [] {
        m := m[key := val];
      }
      i := i + 1;
    }
  }

  /** A key is in the dictionary exactly when it is a non-empty `dt` among the first `min(|dt|, |dd|)`. */
  lemma PairsKeys(keys: seq<string>, vals: seq<string>, k: string)
    ensures k in Pairs(keys, vals) <==>
            k != [] && exists i :: 0 <= i < |keys| && i < |vals| && keys[i] == k
  {
    PairsUpToSpec(keys, vals, Min(|keys|, |vals|));
  }

  /** A `dt` beyond the last `dd` is dropped: `zip` stops at the shorter list. */
  lemma {:induction false} PairsIgnoreExtraKeys(keys: seq<string>, vals: seq<string>, extra: seq<string>)
    requires |keys| == |vals|
    ensures Pairs(keys + extra, vals) == Pairs(keys, vals)
  {
    PairsUpToPrefix(keys, extra, vals, |keys|);
  }

  lemma {:induction false} PairsUpToPrefix(keys: seq<string>, extra: seq<string>, vals: seq<string>, n: nat)
    requires n <= |keys| && n <= |vals|
    ensures PairsUpTo(keys + extra, vals, n) == PairsUpTo(keys, vals, n)
  {
    if n > 0 {
      PairsUpToPrefix(keys, extra, vals, n - 1);
      assert (keys + extra)[n - 1] == keys[n - 1];
    }
  }

  // ===========================================================================
  // Specification groups
  // ===========================================================================

  /** `h3` text, or "Общие" when the group has no `h3`. */
  function GroupName(g: SpecGroup): string {
    g.heading.GetOr(GeneralGroupName)
  }

  /** Whether a group name, lower-cased, starts with "общ". */
  predicate IsGeneralName(name: string) {
    var l := Lower(name);
    |l| >= |GeneralPrefix| && l[..|GeneralPrefix|] == GeneralPrefix
  }

  /** `parsed_groups`: the name and pairs of every group that has at least one pair, in page order. */
  function ParsedGroups(groups: seq<SpecGroup>): (parsed: seq<(string, map<string, string>)>)
    ensures |parsed| <= |groups|
  {
    if groups == [] then []
    else
      var g := groups[|groups| - 1];
      var pairs := Pairs(g.keys, g.vals);
      ParsedGroups(groups[..|groups| - 1]) + (if |pairs| > 0 then [(GroupName(g), pairs)] else [])
  }

  /** Every parsed group has pairs, and is the name and pairs of a group of the page. */
  lemma {:induction false} ParsedGroupsFrom(groups: seq<SpecGroup>)
    ensures forall p :: p in ParsedGroups(groups) ==>
              (|p.1| > 0 && exists g :: g in groups && p == (GroupName(g), Pairs(g.keys, g.vals)))
  {
    if groups != [] {
      ParsedGroupsFrom(groups[..|groups| - 1]);
      assert forall g :: g in groups[..|groups| - 1] ==> g in groups;
    }
  }

  /** A group added at the end of the page adds its name and pairs at the end, if it has pairs. */
  lemma ParsedGroupsAppend(groups: seq<SpecGroup>, g: SpecGroup)
    ensures |Pairs(g.keys, g.vals)| > 0 ==>
              ParsedGroups(groups + [g]) == ParsedGroups(groups) + [(GroupName(g), Pairs(g.keys, g.vals))]
    ensures |Pairs(g.keys, g.vals)| == 0 ==> ParsedGroups(groups + [g]) == ParsedGroups(groups)
  {
    assert (groups + [g])[..|groups|] == groups;
  }

  /** Every group of the page that has at least one pair is parsed. */
  lemma {:induction false} ParsedGroupsComplete(groups: seq<SpecGroup>)
    ensures forall g :: g in groups && |Pairs(g.keys, g.vals)| > 0 ==>
              (GroupName(g), Pairs(g.keys, g.vals)) in ParsedGroups(groups)
  {
    if groups != [] {
      var init := groups[..|groups| - 1];
      ParsedGroupsComplete(init);
      assert groups == init + [groups[|groups| - 1]];
    }
  }

  /** The loop over `div.specifications__group` that fills `parsed_groups`. */
  method ParseGroups(groups: seq<SpecGroup>) returns (parsed: seq<(string, map<string, string>)>)
    ensures parsed == ParsedGroups(groups)
  {
    parsed := [];
    var i := 0;
    while i < |groups|
      invariant 0 <= i <= |groups|
      invariant parsed == ParsedGroups(groups[..i])
    {
      var group := groups[i];
      assert groups[..i + 1][..i] == groups[..i];
      var groupName := if group.heading.Some? then group.heading.value else GeneralGroupName;
      var groupAttrs := CollectPairs(group.keys, group.vals);
      if |groupAttrs| > 0 {
        parsed := parsed + [(groupName, groupAttrs)];
      }
      i := i + 1;
    }
    assert groups[..i] == groups;
  }

  /** Step 3: every parsed group whose name does not start with "общ", a later one replacing an earlier one of the same name. */
  function Retained(parsed: seq<(string, map<string, string>)>): (attrs: map<string, AttrValue>)
  {
    if parsed == [] then map[]
    else
      var p := parsed[|parsed| - 1];
      var attrs := Retained(parsed[..|parsed| - 1]);
      if IsGeneralName(p.0) then attrs else attrs[p.0 := Nested(p.1)]
  }

  /** Every retained section is a parsed group whose name does not start with "общ". */
  lemma {:induction false} RetainedOrigin(parsed: seq<(string, map<string, string>)>)
    ensures forall name :: name in Retained(parsed) ==>
              (Retained(parsed)[name].Nested? && !IsGeneralName(name) &&
               exists i :: 0 <= i < |parsed| && parsed[i] == (name, Retained(parsed)[name].entries))
  {
    if parsed != [] {
      var front := parsed[..|parsed| - 1];
      RetainedOrigin(front);
      assert forall i :: 0 <= i < |front| ==> front[i] == parsed[i];
    }
  }

  /** Every parsed group not named "общ..." is retained, with the pairs of the last group of its name. */
  lemma {:induction false} RetainedLastWins(parsed: seq<(string, map<string, string>)>)
    ensures forall i :: 0 <= i < |parsed| && !IsGeneralName(parsed[i].0) ==> parsed[i].0 in Retained(parsed)
    ensures forall i :: 0 <= i < |parsed| && !IsGeneralName(parsed[i].0) &&
                        (forall j :: i < j < |parsed| ==> parsed[j].0 != parsed[i].0) ==>
              Retained(parsed)[parsed[i].0] == Nested(parsed[i].1)
  {
    if parsed != [] {
      var front := parsed[..|parsed| - 1];
      RetainedLastWins(front);
      assert forall i :: 0 <= i < |front| ==> front[i] == parsed[i];
    }
  }

  /** The loop of step 3. */
  method RetainGroups(parsed: seq<(string, map<string, string>)>) returns (attributes: map<string, AttrValue>)
    ensures attributes == Retained(parsed)
  {
    attributes := map[];
    var i := 0;
    while i < |parsed|
      invariant 0 <= i <= |parsed|
      invariant attributes == Retained(parsed[..i])
    {
      assert parsed[..i + 1][..i] == parsed[..i];
      var (groupName, groupAttrs) := parsed[i];
      if !IsGeneralName(groupName) {
        attributes := attributes[groupName := Nested(groupAttrs)];
      }
      i := i + 1;
    }
    assert parsed[..|parsed|] == parsed;
  }

  /** Every key of every nested group. */
  function GroupKeys(attrs: map<string, AttrValue>): set<string> {
    set name, k | name in attrs && attrs[name].Nested? && k in attrs[name].entries :: k
  }

  /** The keys of the groups named in `names`. */
  function GroupKeysOf(attrs: map<string, AttrValue>, names: set<string>): set<string> {
    set name, k | name in names && name in attrs && attrs[name].Nested? && k in attrs[name].entries :: k
  }

  /** Step 4: `existing_keys`, the keys of every retained group plus the fallback's keys. */
  method ExistingKeys(attributes: map<string, AttrValue>, fallback: map<string, string>) returns (existing: set<string>)
    ensures existing == GroupKeys(attributes) + fallback.Keys
  {
    existing := {};
    var todo := attributes.Keys;
    while todo != {}
      invariant todo <= attributes.Keys
      invariant existing == GroupKeysOf(attributes, attributes.Keys - todo)
      decreases |todo|
    {
      var name :| name in todo;
      var g := attributes[name];
      var added := if g.Nested? then g.entries.Keys else {};
      assert GroupKeysOf(attributes, attributes.Keys - (todo - {name})) == existing + added by {
        assert attributes.Keys - (todo - {name}) == (attributes.Keys - todo) + {name};
      }
      existing := existing + added;
      todo := todo - {name};
    }
    assert attributes.Keys - todo == attributes.Keys;
    assert GroupKeysOf(attributes, attributes.Keys) == GroupKeys(attributes);
    existing := existing + fallback.Keys;
  }

  /** The fallback pairs whose key is not in `existing`. */
  function Missing(existing: set<string>, fallback: map<string, string>): map<string, string> {
    map k | k in fallback && k !in existing :: fallback[k]
  }

  /** The pairs of a section already named "Другие", if there is one. */
  function OtherEntries(attrs: map<string, AttrValue>): map<string, string> {
    if OtherGroupName in attrs && attrs[OtherGroupName].Nested? then attrs[OtherGroupName].entries else map[]
  }

  /** Step 7: the missing fallback pairs added to the "Другие" section, created when needed. */
  function AddOthers(attrs: map<string, AttrValue>, existing: set<string>, fallback: map<string, string>): (r: map<string, AttrValue>)
    ensures Missing(existing, fallback) == map[] ==> r == attrs
    ensures forall name :: name in attrs && name != OtherGroupName ==> name in r && r[name] == attrs[name]
  {
    var missing := Missing(existing, fallback);
    if missing == map[] then attrs else attrs[OtherGroupName := Nested(OtherEntries(attrs) + missing)]
  }

  /** The loop of step 7 over the fallback pairs. */
  method AddOtherPairs(attributes: map<string, AttrValue>, existing: set<string>, fallback: map<string, string>)
    returns (result: map<string, AttrValue>)
    ensures result == AddOthers(attributes, existing, fallback)
  {
    result := attributes;
    var todo := fallback.Keys;
    while todo != {}
      invariant todo <= fallback.Keys
      invariant result == AddOthers(attributes, existing, map k | k in fallback && k !in todo :: fallback[k])
      decreases |todo|
    {
      var k :| k in todo;
      var done := map j | j in fallback && j !in todo :: fallback[j];
      var next := map j | j in fallback && j !in todo - {k} :: fallback[j];
      assert next == done[k := fallback[k]];
      if k !in existing {
        AddOthersStep(attributes, existing, done, k, fallback[k]);
        result := result[OtherGroupName := Nested(OtherEntries(result)[k := fallback[k]])];
      } else {
        assert Missing(existing, next) == Missing(existing, done);
      }
      todo := todo - {k};
    }
    assert (map k | k in fallback && k !in todo :: fallback[k]) == fallback;
  }

  /** Adding one missing pair to what step 7 built so far. */
  lemma AddOthersStep(attrs: map<string, AttrValue>, existing: set<string>, done: map<string, string>, k: string, v: string)
    requires k !in existing
    ensures AddOthers(attrs, existing, done[k := v]) ==
            var r := AddOthers(attrs, existing, done);
            r[OtherGroupName := Nested(OtherEntries(r)[k := v])]
  {
    var missing := Missing(existing, done);
    assert Missing(existing, done[k := v]) == missing[k := v];
    var r := AddOthers(attrs, existing, done);
    if missing == map[] {
      assert missing[k := v] == map[k := v];
      assert k in missing[k := v];
      assert OtherEntries(r) + map[k := v] == OtherEntries(r)[k := v];
    } else {
      assert OtherEntries(r) == OtherEntries(attrs) + missing;
      assert OtherEntries(attrs) + missing[k := v] == (OtherEntries(attrs) + missing)[k := v];
    }
  }

  /** Step 6: the fallback pairs as a flat attribute map. */
  function Flat(fallback: map<string, string>): (r: map<string, AttrValue>)
    ensures r.Keys == fallback.Keys
    ensures forall k :: k in r ==> r[k] == Str(fallback[k])
  {
    map k | k in fallback :: Str(fallback[k])
  }

  /**
   * Steps 1 to 7: the retained specification groups; when none is retained and the page-wide
   * `dl` pairs are not empty, those pairs as a flat map; otherwise the groups with the pairs
   * not seen in any group added under "Другие".
   */
  function AssembledAttributes(groups: seq<SpecGroup>, dlKeys: seq<string>, dlVals: seq<string>): map<string, AttrValue> {
    var attrs := Retained(ParsedGroups(groups));
    var fallback := Pairs(dlKeys, dlVals);
    var existing := GroupKeys(attrs) + fallback.Keys;
    if attrs == map[] && fallback != map[] then Flat(fallback) else AddOthers(attrs, existing, fallback)
  }

  /** The attribute part of the parser, step by step. */
  method AssembleAttributes(groups: seq<SpecGroup>, dlKeys: seq<string>, dlVals: seq<string>)
    returns (attributes: map<string, AttrValue>)
    ensures attributes == AssembledAttributes(groups, dlKeys, dlVals)
  {
    var parsed := ParseGroups(groups);
    var fallback := CollectPairs(dlKeys, dlVals);
    attributes := RetainGroups(parsed);
    var existing := ExistingKeys(attributes, fallback);
    if attributes == map[] && fallback != map[] {
      attributes := Flat(fallback);
    } else {
      attributes := AddOtherPairs(attributes, existing, fallback);
    }
  }

  /**
   * The "Другие" section is never created: every fallback key is in `existing_keys`, so the
   * attributes are the retained groups, or the flat fallback when no group is retained.
   */
  lemma OthersNeverAdded(groups: seq<SpecGroup>, dlKeys: seq<string>, dlVals: seq<string>)
    ensures var attrs := Retained(ParsedGroups(groups));
            var fallback := Pairs(dlKeys, dlVals);
            AssembledAttributes(groups, dlKeys, dlVals) ==
              if attrs == map[] && fallback != map[] then Flat(fallback) else attrs
  {
    var attrs := Retained(ParsedGroups(groups));
    var fallback := Pairs(dlKeys, dlVals);
    assert Missing(GroupKeys(attrs) + fallback.Keys, fallback) == map[];
  }

  /** "Общие" itself, lower-cased, starts with "общ". */
  lemma GeneralNameIsGeneral()
    ensures IsGeneralName(GeneralGroupName)
  {
    assert Lower(GeneralGroupName)[..3] == GeneralPrefix by {
      assert Lower(GeneralGroupName)[0] == 'о';
      assert Lower(GeneralGroupName)[1] == 'б';
      assert Lower(GeneralGroupName)[2] == 'щ';
    }
  }

  /**
   * Every retained group comes from a group that has an `h3` naming it: a group without an
   * `h3` is named "Общие" and so dropped. Its pairs are those of a group of that name.
   */
  lemma RetainedGroupsHaveHeadings(groups: seq<SpecGroup>, name: string)
    requires name in Retained(ParsedGroups(groups))
    ensures !IsGeneralName(name)
    ensures exists g :: g in groups && g.heading == Some(name) &&
              Retained(ParsedGroups(groups))[name] == Nested(Pairs(g.keys, g.vals))
  {
    var parsed := ParsedGroups(groups);
    var attrs := Retained(parsed);
    ParsedGroupsFrom(groups);
    RetainedOrigin(parsed);
    var i :| 0 <= i < |parsed| && parsed[i] == (name, attrs[name].entries);
    assert parsed[i] in parsed;
    var g :| g in groups && parsed[i] == (GroupName(g), Pairs(g.keys, g.vals));
    GeneralNameIsGeneral();
    assert g.heading.Some?;
  }

  // ===========================================================================
  // Price bounds
  // ===========================================================================

  /** The prices of the offers that have one, in order. */
  function Prices(offers: seq<KaspiOffers.Offer>): (ps: seq<int>)
    ensures forall p :: p in ps <==> exists o :: o in offers && o.price == Some(p)
    ensures ps == [] <==> forall o :: o in offers ==> o.price.None?
  {
    if offers == [] then []
    else
      (if offers[0].price.Some? then [offers[0].price.value] else []) + Prices(offers[1..])
  }

  /** `min(...)` over a non-empty list. */
  function MinOf(s: seq<int>): (m: int)
    requires s != []
    ensures m in s && forall x :: x in s ==> m <= x
  {
    if |s| == 1 then s[0]
    else
      var rest := MinOf(s[1..]);
      assert forall x :: x in s ==> x == s[0] || x in s[1..];
      if s[0] <= rest then s[0] else rest
  }

  /** `max(...)` over a non-empty list. */
  function MaxOf(s: seq<int>): (m: int)
    requires s != []
    ensures m in s && forall x :: x in s ==> x <= m
  {
    if |s| == 1 then s[0]
    else
      var rest := MaxOf(s[1..]);
      assert forall x :: x in s ==> x == s[0] || x in s[1..];
      if s[0] >= rest then s[0] else rest
  }

  /** `price_min`, `price_max` and `offers_amount` of the result. */
  datatype PriceSummary = PriceSummary(priceMin: int, priceMax: int, offersAmount: nat)

  /** Why the parser raises: `fetch_offers` raised, or `min()` got no price at all. */
  datatype ProductError = OffersError(cause: KaspiOffers.FetchError) | NoPricedOffer

  /**
   * The price block: nothing when there are no offers; `min()` raising when no offer has a
   * price; otherwise the lowest and highest price and the number of offers.
   */
  function PriceBounds(offers: seq<KaspiOffers.Offer>): (r: Result<Option<PriceSummary>, ProductError>)
    ensures offers == [] <==> r == Ok(None)
    ensures r.Err? <==> offers != [] && forall o :: o in offers ==> o.price.None?
    ensures r.Err? ==> r.error == NoPricedOffer
    ensures r.Ok? && r.value.Some? ==>
              var b := r.value.value;
              b.offersAmount == |offers| && b.priceMin <= b.priceMax &&
              (exists o :: o in offers && o.price == Some(b.priceMin)) &&
              (exists o :: o in offers && o.price == Some(b.priceMax)) &&
              forall o :: o in offers && o.price.Some? ==> b.priceMin <= o.price.value <= b.priceMax
  {
    if offers == [] then Ok(None)
    else
      var ps := Prices(offers);
      if ps == [] then
        Err(NoPricedOffer)
      else
        assert ps[0] in ps;
        Ok(Some(PriceSummary(MinOf(ps), MaxOf(ps), |offers|)))
  }

  // ===========================================================================
  // The whole parser
  // ===========================================================================

  /** What BeautifulSoup reads from the rendered page. */
  datatype ProductPage = ProductPage(
    h1Text: Option<string>,         // stripped text of the first `h1`, if there is one
    imgs: seq<ImgTag>,              // every `img` tag
    groups: seq<SpecGroup>,         // every `div.specifications__group`
    dlKeys: seq<string>,            // texts of `dl dt`
    dlVals: seq<string>)            // texts of `dl dd`

  /** The inputs of the three requests the parser makes after reading the page. */
  datatype Requests = Requests(
    ratingPageLoaded: bool, ratingSnapshots: seq<KaspiRating.Snapshot>,
    cookieOk: bool, offerPosts: seq<KaspiOffers.PostOutcome>,
    categoryGets: seq<KaspiCategory.GetOutcome>)

  /** The result dictionary; `offersAmount` and `offers` are `None` where the keys are absent. */
  datatype ScrapeResult = ScrapeResult(
    url: string, name: Option<string>, category: Option<string>,
    priceMin: Option<int>, priceMax: Option<int>,
    ratingCode: Option<nat>, reviewsCount: Option<nat>,
    images: set<string>, attributes: map<string, AttrValue>, fetchedAt: Option<string>,
    offersAmount: Option<nat>, offers: Option<seq<KaspiOffers.Offer>>)

  /** The deduplicated attributes, unless deduplication leaves nothing: then the attributes as assembled. */
  function FinalAttributes(attrs: map<string, AttrValue>): (r: map<string, AttrValue>)
    ensures r == map[] <==> attrs == map[]
    ensures forall k :: k in r ==> k in attrs && r[k] == attrs[k]
    ensures (exists k :: k in attrs && !IsRemoved(attrs, k)) ==>
              forall k :: k in attrs ==> (k in r <==> !IsRemoved(attrs, k))
    ensures (forall k :: k in attrs ==> IsRemoved(attrs, k)) ==> r == attrs
  {
    var cleaned := Deduplicated(attrs);
    assert (forall k :: k in attrs ==> IsRemoved(attrs, k)) ==> cleaned == map[] by {
      if forall k :: k in attrs ==> IsRemoved(attrs, k) {
        assert cleaned.Keys == {};
      }
    }
    if cleaned != map[] then cleaned else attrs
  }

  /** `parse_kaspi_product_with_bs(url)` with the page read at `fetchedAt`. */
  function ParseProductSpec(url: string, page: ProductPage, fetchedAt: string, env: Requests): Result<ScrapeResult, ProductError> {
    var images := Images(page.imgs);
    var attrs := AssembledAttributes(page.groups, page.dlKeys, page.dlVals);
    var rating := KaspiRating.RatingSpec(env.ratingPageLoaded, env.ratingSnapshots, KaspiRating.DefaultMaxRetries);
    var fetched := KaspiOffers.FetchOffersSpec(url, env.cookieOk, env.offerPosts, KaspiOffers.DefaultMaxRetries);
    if fetched.Err? then Err(OffersError(fetched.error))
    else
      var offers := fetched.value.offers;
      var bounds := PriceBounds(offers);
      if bounds.Err? then Err(bounds.error)
      else
        var category := KaspiCategory.CategoryFrom(env.categoryGets, 0, KaspiCategory.DefaultMaxRetries).path;
        var b := bounds.value;
        Ok(ScrapeResult(url, page.h1Text, category,
                        if b.Some? then Some(b.value.priceMin) else None,
                        if b.Some? then Some(b.value.priceMax) else None,
                        rating.rating, rating.reviewsCount, images, FinalAttributes(attrs), Some(fetchedAt),
                        if b.Some? then Some(b.value.offersAmount) else None,
                        if b.Some? then Some(offers) else None))
  }

  /** The parser: the page parts in order, then the rating, the offers and the category. */
  method ParseProduct(url: string, page: ProductPage, fetchedAt: string, env: Requests)
    returns (r: Result<ScrapeResult, ProductError>)
    ensures r == ParseProductSpec(url, page, fetchedAt, env)
  {
    var images := CollectImages(page.imgs);
    var attributes := AssembleAttributes(page.groups, page.dlKeys, page.dlVals);
    var result := ScrapeResult(url, page.h1Text, None, None, None, None, None, images, attributes, Some(fetchedAt), None, None);
    var ratingData := KaspiRating.ParseRating(env.ratingPageLoaded, env.ratingSnapshots, KaspiRating.DefaultMaxRetries);
    result := result.(ratingCode := ratingData.rating, reviewsCount := ratingData.reviewsCount);
    var fetched := KaspiOffers.FetchOffers(url, env.cookieOk, env.offerPosts, KaspiOffers.DefaultMaxRetries);
    if fetched.Err? {
      return Err(OffersError(fetched.error));
    }
    var offersData := fetched.value.offers;
    if offersData != [] {
      var prices := Prices(offersData);
      if prices == [] {
        return Err(NoPricedOffer);
      }
      result := result.(priceMin := Some(MinOf(prices)), priceMax := Some(MaxOf(prices)),
                        offersAmount := Some(|offersData|), offers := Some(offersData));
    }
    var category := KaspiCategory.GetCategoryPath(env.categoryGets, KaspiCategory.DefaultMaxRetries);
    if category.path.Some? {
      result := result.(category := category.path);
    }
    var cleaned := RemoveGeneralIfDuplicate(attributes);
    if cleaned != map[] {
      result := result.(attributes := cleaned);
    }
    r := Ok(result);
  }

  /** The parser raises exactly when `fetch_offers` raises, or when offers came back and none has a price. */
  lemma ProductFailure(url: string, page: ProductPage, fetchedAt: string, env: Requests)
    ensures var fetched := KaspiOffers.FetchOffersSpec(url, env.cookieOk, env.offerPosts, KaspiOffers.DefaultMaxRetries);
            ParseProductSpec(url, page, fetchedAt, env).Err? <==>
              fetched.Err? ||
              (fetched.value.offers != [] && forall o :: o in fetched.value.offers ==> o.price.None?)
  {
  }
}
