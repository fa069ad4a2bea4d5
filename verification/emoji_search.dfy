/** The emoji picker's search filter: an emoji is kept when its label, one of
    its tags or one of its shortcodes contains the query, ignoring case.
 */
module EmojiSearch {

  datatype Option<T> = None | Some(value: T)

  /** The fields of an emoji the search looks at: its label, its tags (which
      may be absent) and its shortcodes. */
  datatype Emoji = Emoji(labelText: string, tags: Option<seq<string>>, shortcodes: seq<string>)

  /** Upper-casing of one character. Only the ASCII letters are mapped here. */
  function UppercaseChar(c: char): char {
    if 'a' <= c <= 'z' then (c as int - 'a' as int + 'A' as int) as char else c
  }

  /** Lower-casing of one character. Only the ASCII letters are mapped here. */
  function LowercaseChar(c: char): char {
    if 'A' <= c <= 'Z' then (c as int - 'A' as int + 'a' as int) as char else c
  }

  /** Character equality ignoring case, in the platform's three steps: equal
      characters, equal upper-case forms, or equal lower-cased upper-case forms. */
  predicate CharEqualsIgnoreCase(a: char, b: char) {
    || a == b
    || UppercaseChar(a) == UppercaseChar(b)
    || LowercaseChar(UppercaseChar(a)) == LowercaseChar(UppercaseChar(b))
  }

  /** The query fits into `s` at offset `k` and agrees with it there,
      character by character, ignoring case. */
  predicate RegionMatches(s: string, k: nat, query: string) {
    && k + |query| <= |s|
    && forall j :: 0 <= j < |query| ==> CharEqualsIgnoreCase(s[k + j], query[j])
  }

  /** The first offset at or after `from` where the query occurs in `s`
      ignoring case, or -1; every offset up to `|s|` is tried. */
  function IndexOfIgnoreCase(s: string, query: string, from: nat): (r: int)
    requires from <= |s| + 1
    ensures r == -1 <==> forall k :: from <= k <= |s| ==> !RegionMatches(s, k, query)
    ensures r != -1 ==>
              && from <= r <= |s|
              && RegionMatches(s, r, query)
              && forall k :: from <= k < r ==> !RegionMatches(s, k, query)
    decreases |s| + 1 - from
  {
    if from > |s| then -1
    else if RegionMatches(s, from, query) then from
    else IndexOfIgnoreCase(s, query, from + 1)
  }

  /** `s.contains(query, ignoreCase = true)`: the query occurs somewhere in `s`. */
  function ContainsIgnoreCase(s: string, query: string): (b: bool)
    ensures b <==> exists k :: 0 <= k <= |s| && RegionMatches(s, k, query)
  {
    IndexOfIgnoreCase(s, query, 0) >= 0
  }

  /** `strings.any { it.contains(query, true) }`. */
  function AnyContains(strings: seq<string>, query: string): (b: bool)
    ensures b <==> exists i :: 0 <= i < |strings| && ContainsIgnoreCase(strings[i], query)
  {
    if |strings| == 0 then false
    else if ContainsIgnoreCase(strings[0], query) then true
    else
      var rest := AnyContains(strings[1..], query);
      assert rest ==> exists i :: 0 <= i < |strings| && ContainsIgnoreCase(strings[i], query) by {
        if rest {
          var i :| 0 <= i < |strings[1..]| && ContainsIgnoreCase(strings[1..][i], query);
          assert ContainsIgnoreCase(strings[i + 1], query);
        }
      }
      rest
  }

  /** The search predicate: label, else tags (absent tags count as no match),
      else shortcodes. */
  function Keeps(e: Emoji, query: string): (b: bool)
    ensures b <==>
              || ContainsIgnoreCase(e.labelText, query)
              || (e.tags.Some? && exists t :: t in e.tags.value && ContainsIgnoreCase(t, query))
              || (exists c :: c in e.shortcodes && ContainsIgnoreCase(c, query))
  {
    || ContainsIgnoreCase(e.labelText, query)
    || (match e.tags
        case Some(tags) => AnyContains(tags, query)
        case None => false)
    || AnyContains(e.shortcodes, query)
  }

  /** `allEmojis.filter { ... }`: the emojis the query selects, in their
      original order. */
  function Search(allEmojis: seq<Emoji>, query: string): (r: seq<Emoji>)
    ensures |r| <= |allEmojis|
    ensures forall e :: e in r <==> e in allEmojis && Keeps(e, query)
    decreases |allEmojis|
  {
    if |allEmojis| == 0 then []
    else
      var rest := Search(allEmojis[1..], query);
      assert forall e :: e in allEmojis <==> e == allEmojis[0] || e in allEmojis[1..];
      if Keeps(allEmojis[0], query) then [allEmojis[0]] + rest else rest
  }

  /** `sub` is obtained from `s` by deleting elements, keeping the order of
      the rest. */
  ghost predicate IsSubsequence<T>(sub: seq<T>, s: seq<T>)
    decreases |s|
  {
    if |sub| == 0 then true
    else if |s| == 0 then false
    else if sub[0] == s[0] then IsSubsequence(sub[1..], s[1..])
    else IsSubsequence(sub, s[1..])
  }

  /** The search result is an order-preserving selection of the catalogue. */
  lemma {:induction false} SearchIsSubsequence(allEmojis: seq<Emoji>, query: string)
    ensures IsSubsequence(Search(allEmojis, query), allEmojis)
    decreases |allEmojis|
  {
    if |allEmojis| > 0 {
      SearchIsSubsequence(allEmojis[1..], query);
      var rest := Search(allEmojis[1..], query);
      if Keeps(allEmojis[0], query) {
        assert ([allEmojis[0]] + rest)[1..] == rest;
      }
    }
  }

  /** Every emoji the query selects appears in the result exactly as often as
      in the catalogue, and every other emoji not at all. */
  lemma {:induction false} SearchKeepsMultiplicities(allEmojis: seq<Emoji>, query: string, e: Emoji)
    ensures multiset(Search(allEmojis, query))[e] == if Keeps(e, query) then multiset(allEmojis)[e] else 0
    decreases |allEmojis|
  {
    if |allEmojis| > 0 {
      SearchKeepsMultiplicities(allEmojis[1..], query, e);
      assert allEmojis == [allEmojis[0]] + allEmojis[1..];
    }
  }

  /** Every string contains the empty string. */
  lemma EveryStringContainsEmpty(s: string)
    ensures ContainsIgnoreCase(s, "")
  {
  }

  /** With an empty query nothing is filtered out. */
  lemma {:induction false} EmptyQueryKeepsEverything(allEmojis: seq<Emoji>)
    ensures Search(allEmojis, "") == allEmojis
    decreases |allEmojis|
  {
    if |allEmojis| > 0 {
      EveryStringContainsEmpty(allEmojis[0].labelText);
      EmptyQueryKeepsEverything(allEmojis[1..]);
    }
  }

  /** An emoji without tags is judged on its label and shortcodes alone, just
      as if it had an empty tag list. */
  lemma AbsentTagsActAsEmpty(labelText: string, shortcodes: seq<string>, query: string)
    ensures Keeps(Emoji(labelText, None, shortcodes), query)
            == Keeps(Emoji(labelText, Some([]), shortcodes), query)
            == (ContainsIgnoreCase(labelText, query) || AnyContains(shortcodes, query))
  {
  }

  /** Every string contains itself, ignoring case or not: a query equal to an
      emoji's label always finds that emoji. */
  lemma LabelQueryFindsEmoji(allEmojis: seq<Emoji>, i: nat)
    requires i < |allEmojis|
    ensures allEmojis[i] in Search(allEmojis, allEmojis[i].labelText)
  {
  }

  /** The query with every character upper-cased. */
  function UppercaseString(q: string): (r: string)
    ensures |r| == |q|
    ensures forall j :: 0 <= j < |q| ==> r[j] == UppercaseChar(q[j])
  {
    seq(|q|, j requires 0 <= j < |q| => UppercaseChar(q[j]))
  }

  /** Upper-casing a query character does not change which characters it
      equals ignoring case. */
  lemma CharEqualsIgnoresQueryCase(a: char, b: char)
    ensures CharEqualsIgnoreCase(a, UppercaseChar(b)) == CharEqualsIgnoreCase(a, b)
  {
  }

  /** Containment ignoring case does not depend on the case of the query. */
  lemma ContainsIgnoresQueryCase(s: string, q: string)
    ensures ContainsIgnoreCase(s, UppercaseString(q)) == ContainsIgnoreCase(s, q)
  {
    var uq := UppercaseString(q);
    forall k | 0 <= k <= |s|
      ensures RegionMatches(s, k, uq) == RegionMatches(s, k, q)
    {
      forall j | 0 <= j < |q| && k + j < |s|
        ensures CharEqualsIgnoreCase(s[k + j], uq[j]) == CharEqualsIgnoreCase(s[k + j], q[j])
      {
        CharEqualsIgnoresQueryCase(s[k + j], q[j]);
      }
    }
  }

  /** The search keeps the same emojis whatever the case of the query. */
  lemma KeepsIgnoresQueryCase(e: Emoji, q: string)
    ensures Keeps(e, UppercaseString(q)) == Keeps(e, q)
  {
    ContainsIgnoresQueryCase(e.labelText, q);
    forall t | t in e.shortcodes || (e.tags.Some? && t in e.tags.value)
      ensures ContainsIgnoreCase(t, UppercaseString(q)) == ContainsIgnoreCase(t, q)
    {
      ContainsIgnoresQueryCase(t, q);
    }
  }

  /** Searching with an upper-cased query gives the same result, in the same
      order, as searching with the query as typed. */
  lemma {:induction false} SearchIgnoresQueryCase(allEmojis: seq<Emoji>, q: string)
    ensures Search(allEmojis, UppercaseString(q)) == Search(allEmojis, q)
    decreases |allEmojis|
  {
    if |allEmojis| > 0 {
      KeepsIgnoresQueryCase(allEmojis[0], q);
      SearchIgnoresQueryCase(allEmojis[1..], q);
    }
  }

  /** Case is ignored in the text as well as in the query: "smile" contains
      "SMILE" and "Grinning Face" contains "face". */
  lemma MixedCaseExamples()
    ensures ContainsIgnoreCase("smile", "SMILE")
    ensures ContainsIgnoreCase("Grinning Face", "face")
  {
    assert RegionMatches("smile", 0, "SMILE");
    assert RegionMatches("Grinning Face", 9, "face");
  }
}
