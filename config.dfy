/**
 * The two pieces of configuration text the loader takes apart itself: the
 * `key:value,key:value` tag lists of `-telemetry-tags` and `-report-tags`,
 * and the major version in the `version.number` that the server reports.
 */
module BulkLoadConfig {
  import opened Common
  import opened GoStrings

  /** One `[2]string{key, value}` tag pair. */
  datatype Tag = Tag(key: string, value: string)

  /**
   * What parsing a tag list ends in: the tags, or the panic (an index out
   * of range) on the first pair that holds no `':'`, given by its position.
   */
  datatype TagsResult = Tags(tags: seq<Tag>) | Panicked(pair: nat)

  /** The tag of a pair `key:value`, split at its first `':'`; none when it has no `':'`. */
  function PairTag(pair: string): (t: Option<Tag>)
    ensures t.None? <==> ':' !in pair
  {
    var fields := SplitN2(pair, ':');
    if |fields| == 1 then None else Some(Tag(fields[0], fields[1]))
  }

  /** The tag of a pair is its text before the first colon and its text after. */
  lemma PairTagSplits(pair: string)
    requires ':' in pair
    ensures var t := PairTag(pair).value; t.key + [':'] + t.value == pair && ':' !in t.key
  {
  }

  /**
   * The tags of the pairs, in order, appended one by one; the first pair
   * without a `':'` panics and ends the parse.
   */
  function PairTags(pairs: seq<string>): (r: TagsResult)
    ensures r.Tags? ==> |r.tags| == |pairs|
    ensures r.Panicked? ==> r.pair < |pairs| && PairTag(pairs[r.pair]).None?
    decreases |pairs|
  {
    if pairs == [] then Tags([])
    else
      var last := |pairs| - 1;
      match PairTags(pairs[..last])
      case Panicked(k) => Panicked(k)
      case Tags(ts) =>
        match PairTag(pairs[last])
        case None => Panicked(last)
        case Some(t) => Tags(ts + [t])
  }

  /** Tag `k` of a parse without panic is the tag of pair `k`. */
  lemma {:induction false} PairTagsAt(pairs: seq<string>, k: nat)
    requires PairTags(pairs).Tags? && k < |pairs|
    ensures PairTag(pairs[k]) == Some(PairTags(pairs).tags[k])
    decreases |pairs|
  {
    var last := |pairs| - 1;
    var front := pairs[..last];
    PairTagsStep(pairs, last);
    assert pairs[..last + 1] == pairs;
    if k < last {
      PairTagsAt(front, k);
      assert front[k] == pairs[k];
    }
  }

  /** The panic is on the first pair without a colon: every pair before it has one. */
  lemma {:induction false} PanicFirst(pairs: seq<string>, k: nat)
    requires PairTags(pairs).Panicked? && k < PairTags(pairs).pair
    ensures PairTag(pairs[k]).Some?
    decreases |pairs|
  {
    var last := |pairs| - 1;
    var front := pairs[..last];
    PairTagsStep(pairs, last);
    assert pairs[..last + 1] == pairs;
    assert front[k] == pairs[k];
    if PairTags(front).Panicked? {
      PanicFirst(front, k);
    } else {
      PairTagsAt(front, k);
    }
  }

  /** The tags of a `-*-tags` flag: none for empty text, else those of its comma-separated pairs. */
  function TagsOf(csv: string): (r: TagsResult)
    ensures csv == "" ==> r == Tags([])
    ensures csv != "" && r.Tags? ==> |r.tags| == |Split(csv, ',')|
    ensures csv != "" && r.Panicked? ==> r.pair < |Split(csv, ',')| && ':' !in Split(csv, ',')[r.pair]
  {
    if csv == "" then Tags([]) else PairTags(Split(csv, ','))
  }

  /**
   * The tag loop of `init`: split the flag at the commas, split each pair
   * at its first colon and append the pair to the tags.
   */
  method ParseTags(csv: string) returns (r: TagsResult)
    ensures r == TagsOf(csv)
  {
    if csv == "" {
      return Tags([]);
    }
    var pairs := Split(csv, ',');
    var tags: seq<Tag> := [];
    var i := 0;
    while i < |pairs|
      invariant 0 <= i <= |pairs|
      invariant PairTags(pairs[..i]) == Tags(tags)
    {
      var fields := SplitN2(pairs[i], ':');
      if |fields| < 2 {
        PanicAt(pairs, i);
        return Panicked(i);
      }
      TagStep(pairs, i, tags);
      tags := tags + [Tag(fields[0], fields[1])];
      i := i + 1;
    }
    assert pairs[..i] == pairs;
    return Tags(tags);
  }

  /** One more pair parsed: the parse so far, extended by that pair's tag. */
  lemma PairTagsStep(pairs: seq<string>, i: nat)
    requires i < |pairs|
    ensures PairTags(pairs[..i + 1]) ==
      match PairTags(pairs[..i])
      case Panicked(k) => Panicked(k)
      case Tags(ts) => if PairTag(pairs[i]).None? then Panicked(i) else Tags(ts + [PairTag(pairs[i]).value])
  {
    var pre := pairs[..i + 1];
    assert pre[..i] == pairs[..i] && pre[i] == pairs[i];
  }

  /** A panic on a pair ends the parse: the pairs after it change nothing. */
  lemma {:induction false} PanicEndsParse(pairs: seq<string>, i: nat)
    requires i <= |pairs| && PairTags(pairs[..i]).Panicked?
    ensures PairTags(pairs) == PairTags(pairs[..i])
    decreases |pairs|
  {
    if i == |pairs| {
      assert pairs[..i] == pairs;
    } else {
      var front := pairs[..|pairs| - 1];
      assert front[..i] == pairs[..i];
      PanicEndsParse(front, i);
    }
  }

  /** The first pair without a colon is where the parse panics. */
  lemma PanicAt(pairs: seq<string>, i: nat)
    requires i < |pairs| && PairTags(pairs[..i]).Tags? && ':' !in pairs[i]
    ensures PairTags(pairs) == Panicked(i)
  {
    PairTagsStep(pairs, i);
    PanicEndsParse(pairs, i + 1);
  }

  /** A pair with a colon adds its tag to the parse so far. */
  lemma TagStep(pairs: seq<string>, i: nat, tags: seq<Tag>)
    requires i < |pairs| && PairTags(pairs[..i]) == Tags(tags) && ':' in pairs[i]
    ensures PairTags(pairs[..i + 1]) == Tags(tags + [PairTag(pairs[i]).value])
  {
    PairTagsStep(pairs, i);
  }

  /** The text of a tag, `key:value`. */
  function PairText(t: Tag): string {
    t.key + [':'] + t.value
  }

  /** The flag text that lists `tags`: their `key:value` texts joined by commas. */
  function TagsText(tags: seq<Tag>): string {
    if tags == [] then "" else Join(seq(|tags|, k requires 0 <= k < |tags| => PairText(tags[k])), ',')
  }

  /** A tag whose key holds neither `','` nor `':'` and whose value holds no `','`. */
  predicate PlainTag(t: Tag) {
    ',' !in t.key && ':' !in t.key && ',' !in t.value
  }

  /**
   * A tag list written out as flag text is parsed back to the same list,
   * provided no key holds a comma or a colon and no value a comma; a value
   * may hold colons, since only the first colon of a pair splits it.
   */
  lemma TagsRoundTrip(tags: seq<Tag>)
    requires forall k | 0 <= k < |tags| :: PlainTag(tags[k])
    ensures TagsOf(TagsText(tags)) == Tags(tags)
  {
    if tags != [] {
      var texts := seq(|tags|, k requires 0 <= k < |tags| => PairText(tags[k]));
      TextsSplit(tags, texts);
      TextsParse(tags, texts);
    }
  }

  /** The flag text of a non-empty tag list is not empty and splits at its commas into the pair texts. */
  lemma TextsSplit(tags: seq<Tag>, texts: seq<string>)
    requires tags != [] && forall k | 0 <= k < |tags| :: PlainTag(tags[k])
    requires texts == seq(|tags|, k requires 0 <= k < |tags| => PairText(tags[k]))
    ensures TagsText(tags) != "" && Split(TagsText(tags), ',') == texts
  {
    forall k | 0 <= k < |texts|
      ensures ',' !in texts[k]
    {
      NoCommaInPair(tags[k]);
    }
    assert texts[0][|tags[0].key|] == ':';
    JoinNonEmpty(texts, ',');
    SplitJoin(texts, ',');
  }

  /** The pair texts of plain tags parse to those tags. */
  lemma TextsParse(tags: seq<Tag>, texts: seq<string>)
    requires forall k | 0 <= k < |tags| :: PlainTag(tags[k])
    requires texts == seq(|tags|, k requires 0 <= k < |tags| => PairText(tags[k]))
    ensures PairTags(texts) == Tags(tags)
  {
    forall k | 0 <= k < |texts|
      ensures PairTag(texts[k]) == Some(tags[k])
    {
      PairTagOfText(tags[k]);
    }
    PairTagsComplete(texts);
    var r := PairTags(texts);
    forall k | 0 <= k < |tags|
      ensures r.tags[k] == tags[k]
    {
      PairTagsAt(texts, k);
    }
    assert r.tags == tags;
  }

  /** The text of a plain tag splits back into that tag. */
  lemma PairTagOfText(t: Tag)
    requires PlainTag(t)
    ensures PairTag(PairText(t)) == Some(t)
  {
    var text := PairText(t);
    assert text[|t.key|] == ':';
    var u := PairTag(text).value;
    PairTagSplits(text);
    SplitAtFirst(u.key, t.key, ':', u.value, t.value);
  }

  lemma NoCommaInPair(t: Tag)
    requires PlainTag(t)
    ensures ',' !in PairText(t)
  {
    assert PairText(t) == t.key + ([':'] + t.value);
  }

  /** A parse panics only where a pair has no colon, so pairs that all have one parse to tags. */
  lemma PairTagsComplete(pairs: seq<string>)
    requires forall k | 0 <= k < |pairs| :: ':' in pairs[k]
    ensures PairTags(pairs).Tags?
  {
  }

  lemma JoinNonEmpty(parts: seq<string>, c: char)
    requires |parts| >= 1 && parts[0] != []
    ensures Join(parts, c) != []
  {
  }

  /** Two texts that split at their first `c` into `p + [c] + v` agree on both sides. */
  lemma SplitAtFirst(p1: string, p2: string, c: char, v1: string, v2: string)
    requires c !in p1 && c !in p2 && p1 + [c] + v1 == p2 + [c] + v2
    ensures p1 == p2 && v1 == v2
  {
    var s := p1 + [c] + v1;
    IndexOfFirst(p1, c, v1);
    IndexOfFirst(p2, c, v2);
    assert s[..|p1|] == p1 && s[|p1| + 1..] == v1;
    assert s[..|p2|] == p2 && s[|p2| + 1..] == v2;
  }

  /**
   * `checkServer`'s major version: `"5"` when the server's reply carries
   * no `version.number`, otherwise the text of that number before its
   * first `'.'` (all of it when it has none).
   */
  function MajorVersion(number: Option<string>): (v: string)
    ensures number.None? ==> v == "5"
    ensures number.Some? ==> '.' !in v && (v == number.value || v + ['.'] <= number.value)
  {
    match number
    case None => "5"
    case Some(s) =>
      var i := IndexOf(s, '.');
      assert i < |s| ==> s[..i] + ['.'] == s[..i + 1];
      Split(s, '.')[0]
  }

  /** The major version of `major.rest` is `major`, whatever follows the dot. */
  lemma MajorVersionOf(major: string, rest: string)
    requires '.' !in major
    ensures MajorVersion(Some(major + ['.'] + rest)) == major
  {
    IndexOfFirst(major, '.', rest);
    SplitAt(major, '.', rest);
  }

  /** A number without a dot is its own major version. */
  lemma MajorVersionWhole(number: string)
    requires '.' !in number
    ensures MajorVersion(Some(number)) == number
  {
    IndexOfAbsent(number, '.');
  }
}
