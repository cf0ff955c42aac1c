/**
 * Model of src/utils.py: the attribute deduplicator `remove_general_if_duplicate` with its
 * matcher `_key_found_in_text`, the price-text parser `parse_price`, and the two URL helpers
 * that pull the numeric product id and city id out of a product URL.
 */
module Utils {
  import opened Wrappers
  import opened Text

  // ===========================================================================
  // Attribute values
  // ===========================================================================

  /** A top-level attribute value: a text (flat attribute map) or a nested group map. */
  datatype AttrValue = Str(s: string) | Nested(entries: map<string, string>)

  /** A text value longer than this many characters is a summary "group". */
  const GroupTextThreshold: nat := 100
  /** A group in whose text this many individual keys are found is redundant. */
  const RedundancyThreshold: nat := 3
  /** The "general/summary" marker: any key containing it is always removed. */
  const GeneralMarker: string := "общ"

  // ===========================================================================
  // _key_found_in_text
  // ===========================================================================

  /** Whether `key` occurs in `text`, case-insensitively, as a substring, a word or a phrase. */
  function KeyFoundInText(key: string, text: string): (found: bool)
    ensures found ==> key != [] && text != []
  {
    if key == [] || text == [] then false
    else
      var keyLower := Lower(key);
      var textLower := Lower(text);
      if Contains(textLower, keyLower) then true
      else
        var wordsInText := Words(textLower);
        var keyWords := Words(keyLower);
        if |keyWords| == 1 then keyLower in wordsInText
        else Contains(textLower, Join(keyWords, " "))
  }

  /** The single-word test can never succeed once the substring test has failed. */
  lemma SingleWordBranchNeverFires(key: string, text: string)
    requires !Contains(Lower(text), Lower(key))
    ensures Lower(key) !in Words(Lower(text))
  {
    WordsOccurIn(Lower(text));
  }

  /**
   * What the matcher decides: the lowered key occurs in the lowered text, or the key spans
   * several words (or none) and its whitespace-collapsed form occurs.
   */
  lemma KeyFoundExactly(key: string, text: string)
    ensures KeyFoundInText(key, text) <==>
      key != [] && text != [] &&
      (Contains(Lower(text), Lower(key)) ||
       (|Words(Lower(key))| != 1 && Contains(Lower(text), Collapse(Lower(key)))))
  {
    if key != [] && text != [] && !Contains(Lower(text), Lower(key)) {
      SingleWordBranchNeverFires(key, text);
    }
  }

  /** A key with no whitespace at either end is found iff it or its collapsed form occurs. */
  lemma KeyFoundIffOccurs(key: string, text: string)
    requires key == [] || (!IsSpace(key[0]) && !IsSpace(key[|key| - 1]))
    ensures KeyFoundInText(key, text) <==>
      key != [] && text != [] &&
      (Contains(Lower(text), Lower(key)) || Contains(Lower(text), Collapse(Lower(key))))
  {
    KeyFoundExactly(key, text);
    if key != [] && |Words(Lower(key))| == 1 {
      LowerKeepsSpaces(key);
      SingleWordIsWhole(Lower(key));
    }
  }

  /** An unpadded string that splits into one word is that word. */
  lemma SingleWordIsWhole(s: string)
    requires s != [] && !IsSpace(s[0]) && !IsSpace(s[|s| - 1])
    requires |Words(s)| == 1
    ensures Words(s) == [s] && Collapse(s) == s
  {
    assert LeadingSpaces(s) == 0;
    assert s[0..] == s;
    var n := WordLength(s);
    var rest := s[n..];
    assert Words(s) == [s[0..n]] + Words(rest);
    assert Words(rest) == [];
    assert LeadingSpaces(rest) == |rest|;
    assert n == |s|;
    assert s[0..n] == s;
  }

  /**
   * A one-word key with a trailing space is missed even where the word itself occurs: the
   * single-word test looks for the unstripped key among the text's words.
   */
  lemma PaddedKeyMissed(word: string, text: string)
    requires word != [] && NoSpace(word)
    requires Contains(Lower(text), Lower(word)) && !Contains(Lower(text), Lower(word + " "))
    ensures Collapse(Lower(word + " ")) == Lower(word)
    ensures !KeyFoundInText(word + " ", text)
  {
    var key := Lower(word + " ");
    var w := Lower(word);
    assert key == w + " ";
    LowerKeepsSpaces(word);
    assert NoSpace(w);
    assert LeadingSpaces(key) == 0;
    assert key[0..] == key;
    WordLengthOfWord(w, " ");
    assert key[0..|w|] == w;
    assert key[|w|..] == " ";
    assert LeadingSpaces(" ") == 1;
    assert Words(" ") == [];
    assert Words(key) == [w];
    assert key !in Words(Lower(text)) by {
      assert IsSpace(key[|key| - 1]);
    }
  }

  /** Case never matters: lowering both arguments first changes nothing. */
  lemma KeyFoundIgnoresCase(key: string, text: string)
    ensures KeyFoundInText(Lower(key), Lower(text)) == KeyFoundInText(key, text)
  {
    LowerIdempotent(key);
    LowerIdempotent(text);
  }

  // ===========================================================================
  // remove_general_if_duplicate
  // ===========================================================================

  /** A summary group: a text value longer than the group threshold. */
  predicate IsGroupEntry(v: AttrValue) {
    v.Str? && |v.s| > GroupTextThreshold
  }

  /** The individual key an entry contributes: a key ending in ':' (after strip) loses its colons. */
  function IndividualKey(key: string): string {
    if key != [] && EndsWith(Strip(key), ':') then Strip(StripChar(key, ':')) else key
  }

  /** The form of an individual key that is looked up in a group's text. */
  function CleanKey(individualKey: string): string {
    RStripChar(Strip(individualKey), ':')
  }

  /** A key carrying the general/summary marker, whatever its case. */
  predicate IsGeneralKey(key: string) {
    key != [] && Contains(Lower(key), GeneralMarker)
  }

  /** The individual keys contributed by the entries whose keys lie in `among`. */
  function IndividualKeysAmong(attrs: map<string, AttrValue>, among: set<string>): set<string> {
    set k | k in attrs && k in among && !IsGroupEntry(attrs[k]) :: IndividualKey(k)
  }

  function IndividualKeys(attrs: map<string, AttrValue>): set<string> {
    IndividualKeysAmong(attrs, attrs.Keys)
  }

  /** The individual keys that count as found in a group's text: never "" nor the group's own key. */
  function MatchedKeys(individuals: set<string>, groupKey: string, groupText: string): set<string> {
    set ik | ik in individuals && ik != [] && ik != groupKey && KeyFoundInText(CleanKey(ik), groupText)
  }

  /** A group in whose text at least three distinct individual keys are found. */
  predicate IsRedundantGroup(attrs: map<string, AttrValue>, key: string)
    requires key in attrs
  {
    && IsGroupEntry(attrs[key])
    && |MatchedKeys(IndividualKeys(attrs), key, attrs[key].s)| >= RedundancyThreshold
  }

  predicate IsRemoved(attrs: map<string, AttrValue>, key: string)
    requires key in attrs
  {
    IsRedundantGroup(attrs, key) || IsGeneralKey(key)
  }

  function RedundantGroups(attrs: map<string, AttrValue>): set<string> {
    set k | k in attrs && IsRedundantGroup(attrs, k)
  }

  function GeneralKeys(attrs: map<string, AttrValue>): set<string> {
    set k | k in attrs && IsGeneralKey(k)
  }

  function KeysToRemove(attrs: map<string, AttrValue>): set<string> {
    RedundantGroups(attrs) + GeneralKeys(attrs)
  }

  /** The attribute map with every redundant group and every general key deleted. */
  function Deduplicated(attrs: map<string, AttrValue>): (cleaned: map<string, AttrValue>)
    ensures forall k :: k in cleaned ==> k in attrs && cleaned[k] == attrs[k]
    ensures forall k :: k in attrs ==> (k in cleaned <==> !IsRemoved(attrs, k))
  {
    if attrs == map[] then attrs else attrs - KeysToRemove(attrs)
  }

  /**
   * `remove_general_if_duplicate`: classify the entries into individual keys and groups, count
   * the individual keys found in every group's text, collect the keys to remove, and pop them
   * from a copy of the input.
   */
  method RemoveGeneralIfDuplicate(attributes: map<string, AttrValue>) returns (cleaned: map<string, AttrValue>)
    ensures cleaned == Deduplicated(attributes)
  {
    if attributes == map[] {
      return attributes;
    }
    var individualKeys, groupKeys := ClassifyEntries(attributes);

    var keysToRemove := FindRedundantGroups(attributes, individualKeys, groupKeys);
    var generalKeys := set k | k in attributes && k != [] && Contains(Lower(k), GeneralMarker);
    keysToRemove := keysToRemove + generalKeys;

    cleaned := PopKeys(attributes, keysToRemove);
  }

  /** The last loop: `cleaned.pop(key, None)` for every key to remove. */
  method PopKeys<V>(attributes: map<string, V>, keysToRemove: set<string>) returns (cleaned: map<string, V>)
    ensures cleaned == attributes - keysToRemove
  {
    cleaned := attributes;
    var toPop := keysToRemove;
    while toPop != {}
      invariant toPop <= keysToRemove
      invariant cleaned == attributes - (keysToRemove - toPop)
      decreases toPop
    {
      var key :| key in toPop;
      cleaned := cleaned - {key};
      toPop := toPop - {key};
      assert keysToRemove - toPop == (keysToRemove - (toPop + {key})) + {key};
    }
    assert keysToRemove - toPop == keysToRemove;
  }

  /** The second loop: the groups in whose text enough individual keys are found. */
  method FindRedundantGroups(attributes: map<string, AttrValue>, individualKeys: set<string>, groupKeys: seq<string>)
    returns (keysToRemove: set<string>)
    requires individualKeys == IndividualKeys(attributes)
    requires forall g :: g in groupKeys <==> g in attributes && IsGroupEntry(attributes[g])
    ensures keysToRemove == RedundantGroups(attributes)
  {
    keysToRemove := {};
    var i := 0;
    while i < |groupKeys|
      invariant 0 <= i <= |groupKeys|
      invariant forall g :: g in keysToRemove <==> g in groupKeys[..i] && IsRedundantGroup(attributes, g)
    {
      var groupKey := groupKeys[i];
      assert groupKey in groupKeys;
      var foundKeys := FindKeysInGroup(individualKeys, groupKey, attributes[groupKey].s);
      assert |foundKeys| >= RedundancyThreshold <==> IsRedundantGroup(attributes, groupKey);
      if |foundKeys| >= RedundancyThreshold {
        keysToRemove := keysToRemove + {groupKey};
      }
      assert forall g :: g in groupKeys[..i + 1] <==> g in groupKeys[..i] || g == groupKey;
      i := i + 1;
    }
    assert groupKeys[..i] == groupKeys;
    assert forall g :: g in RedundantGroups(attributes) <==> g in keysToRemove;
  }

  /** The first loop: the set of individual keys and the list of group keys. */
  method ClassifyEntries(attributes: map<string, AttrValue>) returns (individualKeys: set<string>, groupKeys: seq<string>)
    ensures individualKeys == IndividualKeys(attributes)
    ensures forall g :: g in groupKeys <==> g in attributes && IsGroupEntry(attributes[g])
  {
    individualKeys, groupKeys := {}, [];
    var pending := attributes.Keys;
    while pending != {}
      invariant pending <= attributes.Keys
      invariant individualKeys == IndividualKeysAmong(attributes, attributes.Keys - pending)
      invariant forall g :: g in groupKeys <==> g in attributes && g !in pending && IsGroupEntry(attributes[g])
      decreases pending
    {
      var key :| key in pending;
      var value := attributes[key];
      ghost var visited := attributes.Keys - pending;
      IndividualKeysAmongStep(attributes, visited, key);
      if value.Str? && |value.s| > GroupTextThreshold {
        groupKeys := groupKeys + [key];
      } else if key != [] && EndsWith(Strip(key), ':') {
        individualKeys := individualKeys + {Strip(StripChar(key, ':'))};
      } else {
        individualKeys := individualKeys + {key};
      }
      pending := pending - {key};
      assert attributes.Keys - pending == visited + {key};
    }
    assert attributes.Keys - pending == attributes.Keys;
  }

  lemma IndividualKeysAmongStep(attrs: map<string, AttrValue>, visited: set<string>, key: string)
    requires key in attrs
    ensures IndividualKeysAmong(attrs, visited + {key}) ==
      IndividualKeysAmong(attrs, visited) + (if IsGroupEntry(attrs[key]) then {} else {IndividualKey(key)})
  {
  }

  /** The inner loop: the individual keys found in one group's text. */
  method FindKeysInGroup(individualKeys: set<string>, groupKey: string, groupValue: string) returns (foundKeys: set<string>)
    ensures foundKeys == MatchedKeys(individualKeys, groupKey, groupValue)
  {
    foundKeys := {};
    var unseen := individualKeys;
    while unseen != {}
      invariant unseen <= individualKeys
      invariant foundKeys == MatchedKeys(individualKeys - unseen, groupKey, groupValue)
      decreases unseen
    {
      var individualKey :| individualKey in unseen;
      ghost var seen := individualKeys - unseen;
      unseen := unseen - {individualKey};
      assert individualKeys - unseen == seen + {individualKey};
      if individualKey == [] || individualKey == groupKey {
        continue;
      }
      var cleanKey := RStripChar(Strip(individualKey), ':');
      if KeyFoundInText(cleanKey, groupValue) {
        foundKeys := foundKeys + {individualKey};
      }
    }
    assert individualKeys - unseen == individualKeys;
  }

  lemma {:induction false} SubsetCardinality(a: set<string>, b: set<string>)
    requires a <= b
    ensures |a| <= |b|
    decreases |b|
  {
    if a != {} {
      var x :| x in a;
      SubsetCardinality(a - {x}, b - {x});
    }
  }

  /** Deduplicating a deduplicated map removes nothing more. */
  lemma DeduplicatedIdempotent(attrs: map<string, AttrValue>)
    ensures Deduplicated(Deduplicated(attrs)) == Deduplicated(attrs)
  {
    var once := Deduplicated(attrs);
    if once != map[] {
      IndividualKeysOfSubmap(attrs, once);
      forall k | k in once
        ensures !IsRemoved(once, k)
      {
        KeptStaysKept(attrs, once, k);
      }
      NothingRemoved(once);
    }
  }

  lemma IndividualKeysOfSubmap(attrs: map<string, AttrValue>, sub: map<string, AttrValue>)
    requires forall k :: k in sub ==> k in attrs && sub[k] == attrs[k]
    ensures IndividualKeys(sub) <= IndividualKeys(attrs)
  {
  }

  lemma NothingRemoved(attrs: map<string, AttrValue>)
    requires forall k :: k in attrs ==> !IsRemoved(attrs, k)
    ensures Deduplicated(attrs) == attrs
  {
    assert KeysToRemove(attrs) == {};
  }

  /** A key deduplication kept is not removed from the deduplicated map either. */
  lemma KeptStaysKept(attrs: map<string, AttrValue>, once: map<string, AttrValue>, k: string)
    requires once == Deduplicated(attrs) && k in once
    requires IndividualKeys(once) <= IndividualKeys(attrs)
    ensures !IsRemoved(once, k)
  {
    assert !IsRemoved(attrs, k);
    if IsGroupEntry(once[k]) {
      var t := once[k].s;
      assert MatchedKeys(IndividualKeys(once), k, t) <= MatchedKeys(IndividualKeys(attrs), k, t);
      SubsetCardinality(MatchedKeys(IndividualKeys(once), k, t), MatchedKeys(IndividualKeys(attrs), k, t));
    }
  }

  /** Only general keys are ever removed among the individual (non-group) entries. */
  lemma IndividualEntriesSurvive(attrs: map<string, AttrValue>, key: string)
    requires key in attrs && !IsGroupEntry(attrs[key]) && !IsGeneralKey(key)
    ensures key in Deduplicated(attrs) && Deduplicated(attrs)[key] == attrs[key]
  {
  }

  /** A key with no whitespace at its ends and no ':' at its end. */
  predicate PlainKey(k: string) {
    k != [] && !IsSpace(k[0]) && !IsSpace(k[|k| - 1]) && k[|k| - 1] != ':'
  }

  /** A plain key is its own individual key and is looked up unchanged. */
  lemma PlainKeyUnchanged(k: string)
    requires PlainKey(k)
    ensures IndividualKey(k) == k && CleanKey(k) == k
  {
    StripUnpadded(k);
    assert TrailingChar(k, ':') == 0;
  }

  /** A key "name:" contributes the individual key "name", looked up as "name". */
  lemma ColonKeyStripped(base: string)
    requires PlainKey(base) && base[0] != ':'
    ensures IndividualKey(base + ":") == base && CleanKey(IndividualKey(base + ":")) == base
  {
    var key := base + ":";
    StripUnpadded(key);
    assert LeadingChar(key, ':') == 0;
    assert key[0..] == key;
    assert key[..|key| - 1] == base;
    assert TrailingChar(base, ':') == 0;
    assert TrailingChar(key, ':') == 1;
    assert StripChar(key, ':') == base;
    PlainKeyUnchanged(base);
  }

  /** An entry `k` that is a plain individual key mentioned in the text of group `groupKey`. */
  ghost predicate MentionedIn(attrs: map<string, AttrValue>, groupKey: string, k: string)
    requires groupKey in attrs && attrs[groupKey].Str?
  {
    k in attrs && !IsGroupEntry(attrs[k]) && PlainKey(k) && Contains(Lower(attrs[groupKey].s), Lower(k))
  }

  lemma MentionedKeyMatched(attrs: map<string, AttrValue>, groupKey: string, k: string)
    requires groupKey in attrs && IsGroupEntry(attrs[groupKey]) && MentionedIn(attrs, groupKey, k)
    ensures k in MatchedKeys(IndividualKeys(attrs), groupKey, attrs[groupKey].s)
  {
    PlainKeyUnchanged(k);
    assert k in IndividualKeys(attrs);
  }

  /**
   * A group whose long text mentions three distinct plain individual keys is removed, and the
   * three individual entries are kept unless they carry the general marker.
   */
  lemma RedundantGroupRemoved(attrs: map<string, AttrValue>, groupKey: string, k1: string, k2: string, k3: string)
    requires groupKey in attrs && IsGroupEntry(attrs[groupKey])
    requires k1 != k2 && k2 != k3 && k1 != k3
    requires MentionedIn(attrs, groupKey, k1) && MentionedIn(attrs, groupKey, k2) && MentionedIn(attrs, groupKey, k3)
    ensures groupKey !in Deduplicated(attrs)
    ensures !IsGeneralKey(k1) ==> k1 in Deduplicated(attrs)
    ensures !IsGeneralKey(k2) ==> k2 in Deduplicated(attrs)
    ensures !IsGeneralKey(k3) ==> k3 in Deduplicated(attrs)
  {
    var matched := MatchedKeys(IndividualKeys(attrs), groupKey, attrs[groupKey].s);
    MentionedKeyMatched(attrs, groupKey, k1);
    MentionedKeyMatched(attrs, groupKey, k2);
    MentionedKeyMatched(attrs, groupKey, k3);
    ThreeDistinct(k1, k2, k3, matched);
    assert IsRedundantGroup(attrs, groupKey);
  }

  lemma ThreeDistinct(k1: string, k2: string, k3: string, s: set<string>)
    requires k1 != k2 && k2 != k3 && k1 != k3
    requires k1 in s && k2 in s && k3 in s
    ensures |s| >= 3
  {
    var three := {k1, k2, k3};
    assert |three| == 3 by {
      assert three == {k1} + {k2} + {k3};
    }
    SubsetCardinality(three, s);
  }

  // ===========================================================================
  // parse_price
  // ===========================================================================

  /** The character class of `PRICE_RE = [\d\s]+`. */
  predicate IsPriceChar(c: char) {
    IsDigit(c) || IsSpace(c)
  }

  const NoBreakSpace: char := '\U{A0}'

  function FirstPriceChar(s: string): (i: nat)
    ensures i <= |s|
    ensures forall j :: 0 <= j < i ==> !IsPriceChar(s[j])
    ensures i < |s| ==> IsPriceChar(s[i])
  {
    if s == [] || IsPriceChar(s[0]) then 0 else 1 + FirstPriceChar(s[1..])
  }

  function PriceRunLength(s: string): (n: nat)
    ensures n <= |s|
    ensures forall j :: 0 <= j < n ==> IsPriceChar(s[j])
    ensures n < |s| ==> !IsPriceChar(s[n])
  {
    if s == [] || !IsPriceChar(s[0]) then 0 else 1 + PriceRunLength(s[1..])
  }

  /** `PRICE_RE.search(s).group(0)`: the leftmost longest run of digits and whitespace. */
  function PriceMatch(s: string): (m: Option<string>)
    ensures m.None? <==> forall j :: 0 <= j < |s| ==> !IsPriceChar(s[j])
    ensures m.Some? ==> m.value != [] && Contains(s, m.value)
    ensures m.Some? ==> forall j :: 0 <= j < |m.value| ==> IsPriceChar(m.value[j])
  {
    var i := FirstPriceChar(s);
    if i == |s| then None
    else
      var n := PriceRunLength(s[i..]);
      assert s[i..][..n] == s[i..i + n];
      ContainsSlice(s, i, i + n);
      Some(s[i..][..n])
  }

  /**
   * The match is leftmost and maximal: it sits at `i`, no digit or whitespace comes before `i`,
   * and the character after it, if any, is neither.
   */
  lemma PriceMatchAt(s: string) returns (i: nat)
    requires PriceMatch(s).Some?
    ensures var m := PriceMatch(s).value;
            && i + |m| <= |s| && s[i..i + |m|] == m
            && (forall j :: 0 <= j < i ==> !IsPriceChar(s[j]))
            && (i + |m| == |s| || !IsPriceChar(s[i + |m|]))
  {
    i := FirstPriceChar(s);
    var n := PriceRunLength(s[i..]);
    assert s[i..][..n] == s[i..i + n];
    if i + n < |s| {
      assert s[i..][n] == s[i + n];
    }
  }

  /** The string the regex searches: no-break spaces turned into spaces, then stripped. */
  function PriceText(text: string): string {
    Strip(ReplaceChar(text, NoBreakSpace, ' '))
  }

  /** `float(run.replace(" ", ""))`: decimal digits, whitespace around them ignored, anything else an error. */
  function RunValue(run: string): Option<nat> {
    var digits := Strip(RemoveChar(run, ' '));
    if digits != [] && AllDigits(digits) then Some(DecimalValue(digits)) else None
  }

  predicate HasDigit(s: string) {
    exists j :: 0 <= j < |s| && IsDigit(s[j])
  }

  /** `parse_price`: the value of the first run of digits and whitespace in the price text. */
  function ParsePrice(text: Option<string>): (price: Option<nat>)
    ensures text.None? || text.value == [] ==> price.None?
    ensures price.Some? ==>
      text.Some? && PriceMatch(PriceText(text.value)).Some? && HasDigit(PriceMatch(PriceText(text.value)).value)
  {
    if text.None? || text.value == [] then None
    else
      match PriceMatch(PriceText(text.value))
      case None => None
      case Some(run) =>
        var v := RunValue(run);
        assert v.Some? ==> HasDigit(run) by {
          var digits := Strip(RemoveChar(run, ' '));
          if v.Some? {
            assert IsDigit(digits[0]);
            assert digits[0] in run;
          }
        }
        v
  }

  /** Digits grouped by spaces or no-break spaces, starting and ending with a digit: "12 990". */
  predicate GroupedDigits(body: string) {
    && body != [] && IsDigit(body[0]) && IsDigit(body[|body| - 1])
    && forall i :: 0 <= i < |body| ==> IsDigit(body[i]) || body[i] == ' ' || body[i] == NoBreakSpace
  }

  /** What may follow a price: nothing, or a unit such as " ₸" that ends in a non-space. */
  predicate PriceSuffix(suffix: string) {
    suffix == [] ||
    (&& !IsSpace(suffix[|suffix| - 1])
     && (|| !IsPriceChar(suffix[0])
         || ((suffix[0] == ' ' || suffix[0] == NoBreakSpace) && |suffix| > 1 && !IsPriceChar(suffix[1]))))
  }

  lemma {:induction false} PriceRunOf(run: string, rest: string)
    requires forall i :: 0 <= i < |run| ==> IsPriceChar(run[i])
    requires rest == [] || !IsPriceChar(rest[0])
    ensures PriceRunLength(run + rest) == |run|
  {
    if run != [] {
      assert (run + rest)[1..] == run[1..] + rest;
      PriceRunOf(run[1..], rest);
    }
  }

  lemma ReplaceConcat(a: string, b: string)
    ensures ReplaceChar(a + b, NoBreakSpace, ' ') == ReplaceChar(a, NoBreakSpace, ' ') + ReplaceChar(b, NoBreakSpace, ' ')
  {
  }

  /** A grouped price followed by a unit is its own price text: nothing to strip. */
  lemma PriceTextOfGrouped(body: string, suffix: string)
    requires GroupedDigits(body) && PriceSuffix(suffix)
    ensures PriceText(body + suffix) == ReplaceChar(body, NoBreakSpace, ' ') + ReplaceChar(suffix, NoBreakSpace, ' ')
  {
    var r := ReplaceChar(body + suffix, NoBreakSpace, ' ');
    ReplaceConcat(body, suffix);
    assert r[0] == body[0];
    if suffix == [] {
      assert r[|r| - 1] == body[|body| - 1];
    } else {
      assert r[|r| - 1] == suffix[|suffix| - 1];
    }
    StripUnpadded(r);
  }

  /** Past a prefix with no digit and no whitespace, the first such character is where the prefix ends. */
  lemma FirstPriceCharAfter(pre: string, tail: string)
    requires forall i :: 0 <= i < |pre| ==> !IsPriceChar(pre[i])
    requires tail != [] && IsPriceChar(tail[0])
    ensures FirstPriceChar(pre + tail) == |pre|
  {
    var s := pre + tail;
    assert forall j :: 0 <= j < |pre| ==> s[j] == pre[j];
    assert s[|pre|] == tail[0];
  }

  /**
   * A run of digits and whitespace, after a prefix with neither and before something else, is
   * what the regex matches.
   */
  lemma PriceMatchOfRun(pre: string, run: string, rest: string)
    requires forall i :: 0 <= i < |pre| ==> !IsPriceChar(pre[i])
    requires run != [] && forall i :: 0 <= i < |run| ==> IsPriceChar(run[i])
    requires rest == [] || !IsPriceChar(rest[0])
    ensures PriceMatch(pre + run + rest) == Some(run)
  {
    var r := pre + run + rest;
    assert r == pre + (run + rest);
    FirstPriceCharAfter(pre, run + rest);
    assert r[|pre|..] == run + rest;
    PriceRunOf(run, rest);
    assert (run + rest)[..|run|] == run;
  }

  /** The digits of `s`, in order. */
  function DigitsOf(s: string): (d: string)
    ensures AllDigits(d)
    ensures |d| <= |s|
  {
    if s == [] then [] else (if IsDigit(s[0]) then [s[0]] else []) + DigitsOf(s[1..])
  }

  /** In digits and spaces, turning no-break spaces into spaces and then dropping spaces keeps the digits. */
  lemma {:induction false} SpacesDropped(t: string)
    requires forall i :: 0 <= i < |t| ==> IsDigit(t[i]) || t[i] == ' ' || t[i] == NoBreakSpace
    ensures RemoveChar(ReplaceChar(t, NoBreakSpace, ' '), ' ') == DigitsOf(t)
    decreases |t|
  {
    if t != [] {
      var r := ReplaceChar(t, NoBreakSpace, ' ');
      assert r[1..] == ReplaceChar(t[1..], NoBreakSpace, ' ');
      SpacesDropped(t[1..]);
    }
  }

  /** Removing the spaces of a grouped price, with or without one trailing space, leaves its digits. */
  lemma RunValueOfGrouped(body: string, spaced: bool)
    requires GroupedDigits(body)
    ensures var b := ReplaceChar(body, NoBreakSpace, ' ');
            RunValue(if spaced then b + " " else b) == Some(DecimalValue(DigitsOf(body)))
  {
    var b := ReplaceChar(body, NoBreakSpace, ' ');
    var run := if spaced then b + " " else b;
    var digits := DigitsOf(body);
    SpacesDropped(body);
    if spaced {
      RemoveCharConcat(b, " ", ' ');
      assert RemoveChar(" ", ' ') == [];
      assert digits + [] == digits;
    }
    assert RemoveChar(run, ' ') == digits;
    assert digits != [] by {
      assert DigitsOf(body) == [body[0]] + DigitsOf(body[1..]);
    }
    StripUnpadded(digits);
  }

  /**
   * After a price, the regex's run of digits and whitespace takes at most one more space:
   * the first character of a unit, or the one after a single separating space, ends it.
   */
  lemma SuffixSplit(suffix: string) returns (spaced: bool, rest: string)
    requires PriceSuffix(suffix)
    ensures ReplaceChar(suffix, NoBreakSpace, ' ') == (if spaced then " " else "") + rest
    ensures rest == [] || !IsPriceChar(rest[0])
  {
    var sfx := ReplaceChar(suffix, NoBreakSpace, ' ');
    spaced := suffix != [] && (suffix[0] == ' ' || suffix[0] == NoBreakSpace);
    if spaced {
      rest := sfx[1..];
      assert sfx[0] == ' ';
      assert rest[0] == suffix[1];
      assert sfx == " " + rest;
    } else {
      rest := sfx;
      if suffix != [] {
        assert rest[0] == suffix[0];
      }
      assert sfx == "" + rest;
    }
  }

  /**
   * When the price text is a prefix with no digit and no whitespace, a run of them, and then
   * something else, `parse_price` is the value of that run.
   */
  lemma ParsePriceOfRun(text: string, pre: string, run: string, rest: string)
    requires text != [] && PriceText(text) == pre + run + rest
    requires forall i :: 0 <= i < |pre| ==> !IsPriceChar(pre[i])
    requires run != [] && forall i :: 0 <= i < |run| ==> IsPriceChar(run[i])
    requires rest == [] || !IsPriceChar(rest[0])
    ensures ParsePrice(Some(text)) == RunValue(run)
  {
    PriceMatchOfRun(pre, run, rest);
  }

  /** A grouped price, no-break spaces turned into spaces, with or without one more space, is a run. */
  lemma GroupedIsRun(body: string, spaced: bool)
    requires GroupedDigits(body)
    ensures var b := ReplaceChar(body, NoBreakSpace, ' ');
            var run := if spaced then b + " " else b;
            run != [] && forall i :: 0 <= i < |run| ==> IsPriceChar(run[i])
  {
  }

  /** A grouped price followed by a unit is read as the number its digits spell. */
  lemma ParsePriceGrouped(body: string, suffix: string)
    requires GroupedDigits(body) && PriceSuffix(suffix)
    ensures ParsePrice(Some(body + suffix)) == Some(DecimalValue(DigitsOf(body)))
  {
    var b := ReplaceChar(body, NoBreakSpace, ' ');
    PriceTextOfGrouped(body, suffix);
    var spaced, rest := SuffixSplit(suffix);
    var run := if spaced then b + " " else b;
    assert PriceText(body + suffix) == "" + run + rest;
    GroupedIsRun(body, spaced);
    ParsePriceOfRun(body + suffix, "", run, rest);
    RunValueOfGrouped(body, spaced);
  }

  /** `str(n)` followed by " ₸" is read back as `n`. */
  lemma ParsePriceOfNumber(n: nat)
    ensures ParsePrice(Some(NatToDecimal(n) + " ₸")) == Some(n)
  {
    var digits := NatToDecimal(n);
    assert PriceSuffix(" ₸");
    ParsePriceGrouped(digits, " ₸");
    DigitsOfDigits(digits);
    DecimalRoundTrip(n);
  }

  lemma {:induction false} DigitsOfDigits(s: string)
    requires AllDigits(s)
    ensures DigitsOf(s) == s
    decreases |s|
  {
    if s != [] {
      DigitsOfDigits(s[1..]);
    }
  }

  /** The price text of a product card: "12 990 ₸" is 12990. */
  lemma ParsePriceExample()
    ensures ParsePrice(Some("12 990 ₸")) == Some(12990)
  {
    assert "12 990 ₸" == "12 990" + " ₸";
    ExampleParts();
    ParsePriceGrouped("12 990", " ₸");
    ExampleDigits();
  }

  lemma ExampleParts()
    ensures GroupedDigits("12 990") && PriceSuffix(" ₸")
  {
  }

  lemma ExampleDigits()
    ensures DecimalValue(DigitsOf("12 990")) == 12990
  {
    assert DigitsOf("12 990") == "12990" by {
      assert "12 990"[1..] == "2 990" && "2 990"[1..] == " 990" && " 990"[1..] == "990";
      DigitsOfDigits("990");
    }
    assert DecimalValue("12990") == 12990 by {
      assert "12990"[..4] == "1299" && "1299"[..3] == "129" && "129"[..2] == "12" && "12"[..1] == "1" && "1"[..0] == [];
    }
  }

  // ===========================================================================
  // extract_product_id_from_url / extract_city_id_from_url
  // ===========================================================================

  const ProductPathMarker: string := "/p/"

  /** Position `m` of the run after "/p/" holds "-" and a digit, with at least one character before it. */
  predicate DashDigitAt(seg: string, m: nat) {
    1 <= m && m + 1 < |seg| && seg[m] == '-' && IsDigit(seg[m + 1])
  }

  /** The largest position below `below` that `DashDigitAt` accepts: where greedy `[^/]+` backtracks to. */
  function LastDashDigit(seg: string, below: nat): (r: Option<nat>)
    ensures r.Some? ==> r.value < below && DashDigitAt(seg, r.value)
    ensures r.Some? ==> forall m: nat :: r.value < m < below ==> !DashDigitAt(seg, m)
    ensures r.None? ==> forall m: nat :: m < below ==> !DashDigitAt(seg, m)
  {
    if below == 0 then None
    else if DashDigitAt(seg, below - 1) then Some(below - 1)
    else LastDashDigit(seg, below - 1)
  }

  /** Number of characters other than '/' at the start of `s`. */
  function NonSlashRun(s: string): (n: nat)
    ensures n <= |s|
    ensures forall i :: 0 <= i < n ==> s[i] != '/'
    ensures n < |s| ==> s[n] == '/'
  {
    if s == [] || s[0] == '/' then 0 else 1 + NonSlashRun(s[1..])
  }

  /** The group `(\d+)` of `/p/[^/]+-(\d+)` when the regex matches starting at position `i`. */
  function ProductIdAt(url: string, i: nat): (id: Option<string>)
    requires i <= |url|
    ensures id.Some? ==> id.value != [] && AllDigits(id.value)
  {
    if !(ProductPathMarker <= url[i..]) then None
    else
      var after := url[i + 3..];
      var seg := after[..NonSlashRun(after)];
      match LastDashDigit(seg, |seg|)
      case None => None
      case Some(m) =>
        var digits := seg[m + 1..];
        Some(digits[..DigitRun(digits)])
  }

  /** `re.search` from position `i` on: the first position where the regex matches, or `|url| + 1`. */
  function FirstProductMatch(url: string, i: nat): (j: nat)
    requires i <= |url|
    ensures i <= j <= |url| + 1
    ensures j <= |url| ==> ProductIdAt(url, j).Some?
    ensures forall j' :: i <= j' < j && j' <= |url| ==> ProductIdAt(url, j').None?
    decreases |url| - i
  {
    if ProductIdAt(url, i).Some? then i
    else if i == |url| then |url| + 1
    else FirstProductMatch(url, i + 1)
  }

  /** `extract_product_id_from_url`; `None` where the source raises because the regex did not match. */
  function ExtractProductId(url: string): (id: Option<string>)
    ensures id.Some? ==> id.value != [] && AllDigits(id.value)
    ensures id.None? <==> forall j :: 0 <= j <= |url| ==> ProductIdAt(url, j).None?
    ensures id.Some? ==> exists j :: 0 <= j <= |url| && ProductIdAt(url, j) == id &&
                                     forall j' :: 0 <= j' < j ==> ProductIdAt(url, j').None?
  {
    var j := FirstProductMatch(url, 0);
    if j == |url| + 1 then None else ProductIdAt(url, j)
  }

  /**
   * The id of a canonical product URL `prefix/p/<slug>-<id>/...` is `<id>`, whatever dashes
   * and digits the slug holds.
   */
  lemma ProductIdOfUrl(prefix: string, slug: string, id: string, rest: string)
    requires !Contains(prefix + "/p", ProductPathMarker)
    requires slug != [] && '/' !in slug
    requires id != [] && AllDigits(id)
    requires rest == [] || rest[0] == '/'
    ensures ExtractProductId(prefix + ProductPathMarker + slug + "-" + id + rest) == Some(id)
  {
    var url := prefix + ProductPathMarker + slug + "-" + id + rest;
    var i := |prefix|;
    assert prefix + "/p" <= url by {
      assert url == (prefix + "/p") + ("/" + slug + "-" + id + rest);
    }
    NoProductMatchInPrefix(prefix, url);
    ProductIdAtMarker(prefix, slug, id, rest, url);
    FirstProductMatchSkips(url, 0, i);
    assert FirstProductMatch(url, i) == i;
  }

  /** No match starts inside a prefix that holds no "/p/", even reaching one character past it. */
  lemma NoProductMatchInPrefix(prefix: string, url: string)
    requires !Contains(prefix + "/p", ProductPathMarker)
    requires prefix + "/p" <= url
    ensures forall j :: 0 <= j < |prefix| ==> ProductIdAt(url, j).None?
  {
    forall j | 0 <= j < |prefix|
      ensures ProductIdAt(url, j).None?
    {
      assert !(ProductPathMarker <= url[j..]) by {
        if ProductPathMarker <= url[j..] {
          var head := prefix + "/p";
          assert url[j..][..3] == ProductPathMarker;
          assert url[j..][..3] == url[j..j + 3] == head[j..j + 3];
          ContainsSlice(head, j, j + 3);
        }
      }
    }
  }

  /** At the "/p/" itself the regex reads the digits after the slug's last dash. */
  lemma ProductIdAtMarker(prefix: string, slug: string, id: string, rest: string, url: string)
    requires slug != [] && '/' !in slug
    requires id != [] && AllDigits(id)
    requires rest == [] || rest[0] == '/'
    requires url == prefix + ProductPathMarker + slug + "-" + id + rest
    ensures ProductIdAt(url, |prefix|) == Some(id)
  {
    var i := |prefix|;
    assert url[i..] == ProductPathMarker + slug + "-" + id + rest;
    var after := url[i + 3..];
    var seg := slug + "-" + id;
    assert after == seg + rest;
    assert after[..|seg|] == seg;
    NonSlashRunOf(seg, rest);
    SlugDashId(slug, id);
    DigitRunOfDigits(id, []);
    assert id + [] == id;
  }

  /** In "slug-id" the last dash followed by a digit is the one after the slug. */
  lemma SlugDashId(slug: string, id: string)
    requires slug != [] && id != [] && AllDigits(id)
    ensures LastDashDigit(slug + "-" + id, |slug + "-" + id|) == Some(|slug|)
    ensures (slug + "-" + id)[|slug| + 1..] == id
  {
    var seg := slug + "-" + id;
    var m := |slug|;
    assert DashDigitAt(seg, m);
    assert forall m': nat :: m < m' < |seg| ==> !DashDigitAt(seg, m') by {
      forall m' | m < m' < |seg| ensures seg[m'] != '-' {
        assert seg[m'] == id[m' - m - 1];
      }
    }
  }

  lemma {:induction false} NonSlashRunOf(seg: string, rest: string)
    requires '/' !in seg
    requires rest == [] || rest[0] == '/'
    ensures NonSlashRun(seg + rest) == |seg|
  {
    if seg != [] {
      assert (seg + rest)[1..] == seg[1..] + rest;
      NonSlashRunOf(seg[1..], rest);
    }
  }

  /** Positions where the regex fails are skipped by the search. */
  lemma {:induction false} FirstProductMatchSkips(url: string, i: nat, k: nat)
    requires i <= k <= |url|
    requires forall j :: i <= j < k ==> ProductIdAt(url, j).None?
    ensures FirstProductMatch(url, i) == FirstProductMatch(url, k)
    decreases k - i
  {
    if i < k {
      FirstProductMatchSkips(url, i + 1, k);
    }
  }

  /** The regex `[?&]c=(\d+)` matches at position `i`. */
  predicate CityMarkerAt(url: string, i: nat) {
    && i + 3 < |url|
    && (url[i] == '?' || url[i] == '&')
    && url[i + 1] == 'c' && url[i + 2] == '='
    && IsDigit(url[i + 3])
  }

  /** `re.search` from position `i` on: the first position where the regex matches, or `|url|`. */
  function FirstCityMarker(url: string, i: nat): (j: nat)
    requires i <= |url|
    ensures i <= j <= |url|
    ensures j < |url| ==> CityMarkerAt(url, j)
    ensures forall j' :: i <= j' < j ==> !CityMarkerAt(url, j')
    decreases |url| - i
  {
    if i == |url| || CityMarkerAt(url, i) then i else FirstCityMarker(url, i + 1)
  }

  /** `extract_city_id_from_url`; `None` where the source raises because the regex did not match. */
  function ExtractCityId(url: string): (id: Option<string>)
    ensures id.Some? ==> id.value != [] && AllDigits(id.value)
    ensures id.None? <==> forall j :: 0 <= j < |url| ==> !CityMarkerAt(url, j)
    ensures id.Some? ==> exists j :: 0 <= j < |url| && CityMarkerAt(url, j) &&
                                     id.value == url[j + 3..][..DigitRun(url[j + 3..])] &&
                                     forall j' :: 0 <= j' < j ==> !CityMarkerAt(url, j')
  {
    var j := FirstCityMarker(url, 0);
    if j == |url| then None
    else
      var digits := url[j + 3..];
      Some(digits[..DigitRun(digits)])
  }

  /** The city id of `base?c=<id>...` is `<id>` when the base has no query part. */
  lemma CityIdOfUrl(base: string, id: string, rest: string)
    requires '?' !in base && '&' !in base
    requires id != [] && AllDigits(id)
    requires rest == [] || !IsDigit(rest[0])
    ensures ExtractCityId(base + "?c=" + id + rest) == Some(id)
  {
    var url := base + "?c=" + id + rest;
    var i := |base|;
    forall j | 0 <= j < i ensures !CityMarkerAt(url, j) {
      assert url[j] == base[j];
    }
    assert CityMarkerAt(url, i);
    assert url[i + 3..] == id + rest;
    DigitRunOfDigits(id, rest);
    FirstCityMarkerSkips(url, 0, i);
  }

  lemma {:induction false} FirstCityMarkerSkips(url: string, i: nat, k: nat)
    requires i <= k < |url|
    requires forall j :: i <= j < k ==> !CityMarkerAt(url, j)
    ensures FirstCityMarker(url, i) == FirstCityMarker(url, k)
    decreases k - i
  {
    if i < k {
      FirstCityMarkerSkips(url, i + 1, k);
    }
  }
}
