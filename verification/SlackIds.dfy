/**
 The ids the Slack app packs values into and takes them out of again: `block_<key>`
 block ids of the tagging modal, and the colon-joined resource ids.
 */
module SlackIds {
  import opened Common
  import opened Text

  const BLOCK := "block_"

  // ----- split and rsplit

  /** Position of the first `c`. */
  function IndexOf(text: string, c: char): (i: Option<nat>)
    ensures i.Some? ==> i.value < |text| && text[i.value] == c && c !in text[..i.value]
    ensures i.None? ==> c !in text
  {
    if text == "" then None
    else if text[0] == c then Some(0)
    else
      match IndexOf(text[1..], c)
      case None => None
      case Some(i) => assert text[..i + 1] == [text[0]] + text[1..][..i]; Some(i + 1)
  }

  /** `text.split(c)` */
  function Split(text: string, c: char): seq<string>
    decreases |text|
  {
    match IndexOf(text, c)
    case None => [text]
    case Some(i) => [text[..i]] + Split(text[i + 1..], c)
  }

  /** `a, b = text.split(c, 1)`; nothing when the unpacking raises. */
  function SplitOnce(text: string, c: char): Option<(string, string)> {
    match IndexOf(text, c)
    case None => None
    case Some(i) => Some((text[..i], text[i + 1..]))
  }

  /** `a, b = text.split(c)`; nothing when the unpacking raises. */
  function SplitPair(text: string, c: char): Option<(string, string)> {
    var parts := Split(text, c);
    if |parts| == 2 then Some((parts[0], parts[1])) else None
  }

  /** The last occurrence of `part` that starts before `end`. */
  function LastIndex(text: string, part: string, end: nat): (i: Option<nat>)
    ensures i.Some? ==> i.value < end && TextAt(text, part, i.value)
                        && forall j :: i.value < j < end ==> !TextAt(text, part, j)
    ensures i.None? ==> forall j :: 0 <= j < end ==> !TextAt(text, part, j)
  {
    if end == 0 then None else if TextAt(text, part, end - 1) then Some(end - 1) else LastIndex(text, part, end - 1)
  }

  /** `text.rsplit(part, 1)[-1]` */
  function RSplitLast(text: string, part: string): string {
    match LastIndex(text, part, |text| + 1)
    case None => text
    case Some(i) => text[i + |part|..]
  }

  lemma FirstIsAt(a: string, c: char, b: string)
    requires c !in a
    ensures IndexOf(a + [c] + b, c) == Some(|a|)
  {
    var text := a + [c] + b;
    assert text[|a|] == c;
    var i := IndexOf(text, c).value;
    assert forall j :: 0 <= j < |a| ==> text[j] == a[j];
    assert forall j :: 0 <= j < i ==> text[..i][j] == text[j];
  }

  // ----- tag keys

  /** The key of a missing tag given as `key` or `key=value`. */
  function TagKey(tag: string): string {
    Split(tag, '=')[0]
  }

  datatype InputBlock = InputBlock(blockId: string, initial: Option<string>)

  function BlockFor(tag: string): InputBlock {
    var keyValue := Split(tag, '=');
    InputBlock(BLOCK + keyValue[0], if |keyValue| > 1 then Some(keyValue[1]) else None)
  }

  function ModalBlocks(missingTags: seq<string>): seq<InputBlock> {
    if missingTags == [] then []
    else ModalBlocks(missingTags[..|missingTags| - 1]) + [BlockFor(missingTags[|missingTags| - 1])]
  }

  /** The loop of `get_tagging_modal_json`. */
  method TaggingModal(missingTags: seq<string>) returns (blocks: seq<InputBlock>)
    ensures blocks == ModalBlocks(missingTags)
    ensures |blocks| == |missingTags| && forall i :: 0 <= i < |blocks| ==> blocks[i] == BlockFor(missingTags[i])
  {
    blocks := [];
    for i := 0 to |missingTags|
      invariant blocks == ModalBlocks(missingTags[..i])
      invariant |blocks| == i && forall j :: 0 <= j < i ==> blocks[j] == BlockFor(missingTags[j])
    {
      assert missingTags[..i + 1][..i] == missingTags[..i];
      blocks := blocks + [BlockFor(missingTags[i])];
    }
    assert missingTags[..|missingTags|] == missingTags;
  }

  datatype Tag = Tag(key: string, value: string)

  /** The submitted state: block ids with their values, in the order of the view. */
  function TagsOf(values: seq<(string, string)>): seq<Tag> {
    if values == [] then []
    else
      var (blockId, value) := values[|values| - 1];
      TagsOf(values[..|values| - 1]) + [Tag(RSplitLast(blockId, BLOCK), value)]
  }

  /** The loop of `handle_view_submission_events` over the submitted block values. */
  method SubmittedTags(values: seq<(string, string)>) returns (tags: seq<Tag>)
    ensures tags == TagsOf(values)
    ensures |tags| == |values|
    ensures forall i :: 0 <= i < |tags| ==> tags[i] == Tag(RSplitLast(values[i].0, BLOCK), values[i].1)
  {
    tags := [];
    for i := 0 to |values|
      invariant tags == TagsOf(values[..i])
      invariant |tags| == i && forall j :: 0 <= j < i ==> tags[j] == Tag(RSplitLast(values[j].0, BLOCK), values[j].1)
    {
      assert values[..i + 1][..i] == values[..i];
      tags := tags + [Tag(RSplitLast(values[i].0, BLOCK), values[i].1)];
    }
    assert values[..|values|] == values;
  }

  lemma BlockPrefix(key: string, i: nat)
    requires i <= |BLOCK + key|
    ensures TextAt(BLOCK + key, BLOCK, i) <==> i == 0 || (i >= 6 && TextAt(key, BLOCK, i - 6))
  {
    var text := BLOCK + key;
    if i == 0 {
      assert text[0..6] == BLOCK;
    } else if i < 6 {
      assert text[i] == BLOCK[i] != 'b';
      assert i + 6 <= |text| ==> text[i..i + 6][0] == text[i];
    } else if i + 6 <= |text| {
      assert forall k :: i <= k < i + 6 ==> text[k] == key[k - 6];
      assert text[i..i + 6] == key[i - 6..i];
    }
  }

  /** A tag key comes back from its block id if and only if it does not itself contain
      the marker. */
  lemma TagKeySurvivesIff(key: string)
    ensures RSplitLast("block_" + key, "block_") == key <==> !HasText(key, "block_")
  {
    var text := BLOCK + key;
    BlockPrefix(key, 0);
    var i := LastIndex(text, BLOCK, |text| + 1).value;
    BlockPrefix(key, i);
    if i == 0 {
      assert text[6..] == key;
      if j :| 0 <= j <= |key| && TextAt(key, BLOCK, j) {
        BlockPrefix(key, j + 6);
      }
    } else {
      assert TextAt(key, BLOCK, i - 6);
      assert |text[i + 6..]| < |key|;
    }
  }

  /** What a user who fills in the modal sends back. */
  function Filled(blocks: seq<InputBlock>, values: seq<string>): seq<(string, string)>
    requires |blocks| == |values|
  {
    if blocks == [] then []
    else
      var n := |blocks| - 1;
      Filled(blocks[..n], values[..n]) + [(blocks[n].blockId, values[n])]
  }

  /** The tags that were asked for, with the values filled in. */
  function Wanted(missingTags: seq<string>, values: seq<string>): seq<Tag>
    requires |missingTags| == |values|
  {
    if missingTags == [] then []
    else
      var n := |missingTags| - 1;
      Wanted(missingTags[..n], values[..n]) + [Tag(TagKey(missingTags[n]), values[n])]
  }

  lemma SameLast(a: seq<Tag>, b: seq<Tag>, x: Tag, y: Tag)
    ensures a + [x] == b + [y] <==> a == b && x == y
  {
    if a + [x] == b + [y] {
      assert |a + [x]| == |a| + 1 && |b + [y]| == |b| + 1;
      assert (a + [x])[|a|] == x && (b + [y])[|b|] == y;
      assert a == (a + [x])[..|a|] && b == (b + [y])[..|b|];
    }
  }

  /** Both loops: the tags of a filled-in modal are exactly the ones asked for, whatever the
      values, if and only if no key contains the marker. */
  lemma {:induction false} ModalRoundTrip(missingTags: seq<string>, values: seq<string>)
    requires |missingTags| == |values|
    ensures |ModalBlocks(missingTags)| == |values|
    ensures TagsOf(Filled(ModalBlocks(missingTags), values)) == Wanted(missingTags, values) <==>
            forall tag :: tag in missingTags ==> !HasText(TagKey(tag), BLOCK)
  {
    hide RSplitLast, HasText, TagKey, BlockFor, TagsOf, Filled, Wanted;
    if missingTags == [] {
      NothingFilled();
    } else {
      var n := |missingTags| - 1;
      ModalRoundTrip(missingTags[..n], values[..n]);
      OneMoreTag(missingTags, values);
      assert missingTags == missingTags[..n] + [missingTags[n]];
    }
  }

  lemma NothingFilled()
    ensures TagsOf(Filled([], [])) == Wanted([], []) == []
  {
  }

  /** The last tag comes back or not, whatever the others do. */
  lemma OneMoreTag(missingTags: seq<string>, values: seq<string>)
    requires missingTags != [] && |missingTags| == |values| == |ModalBlocks(missingTags[..|missingTags| - 1])| + 1
    ensures var n := |missingTags| - 1;
            && |ModalBlocks(missingTags)| == |values|
            && (TagsOf(Filled(ModalBlocks(missingTags), values)) == Wanted(missingTags, values) <==>
                  && TagsOf(Filled(ModalBlocks(missingTags[..n]), values[..n])) == Wanted(missingTags[..n], values[..n])
                  && !HasText(TagKey(missingTags[n]), BLOCK))
  {
    hide RSplitLast, HasText, TagKey, BlockFor;
    var n := |missingTags| - 1;
    var tag, before, value := missingTags[n], ModalBlocks(missingTags[..n]), values[n];
    assert ModalBlocks(missingTags)[..n] == before;
    FilledMore(before, values[..n], BlockFor(tag).blockId, value);
    assert Filled(ModalBlocks(missingTags), values) == Filled(before, values[..n]) + [(BlockFor(tag).blockId, value)];
    KeyRoundTrip(tag);
    SameLast(TagsOf(Filled(before, values[..n])), Wanted(missingTags[..n], values[..n]),
             Tag(RSplitLast(BlockFor(tag).blockId, BLOCK), value), Tag(TagKey(tag), value));
  }

  lemma FilledMore(blocks: seq<InputBlock>, values: seq<string>, blockId: string, value: string)
    requires |blocks| == |values|
    ensures TagsOf(Filled(blocks, values) + [(blockId, value)]) ==
            TagsOf(Filled(blocks, values)) + [Tag(RSplitLast(blockId, BLOCK), value)]
  {
    hide RSplitLast, Filled;
    var filled := Filled(blocks, values);
    assert (filled + [(blockId, value)])[..|filled|] == filled;
  }

  lemma KeyRoundTrip(tag: string)
    ensures RSplitLast(BlockFor(tag).blockId, BLOCK) == TagKey(tag) <==> !HasText(TagKey(tag), BLOCK)
  {
    TagKeySurvivesIff(TagKey(tag));
  }

  /** The pre-filled value is everything after the first `=`, if and only if there is no
      second one; a tag without `=` has none. */
  lemma InitialValueIff(key: string, value: string)
    requires '=' !in key
    ensures BlockFor(key + "=" + value).blockId == "block_" + key
    ensures BlockFor(key + "=" + value).initial == Some(value) <==> '=' !in value
    ensures BlockFor(key) == InputBlock("block_" + key, None)
  {
    var tag := key + "=" + value;
    FirstIsAt(key, '=', value);
    assert tag[..|key|] == key && tag[|key| + 1..] == value;
    assert Split(tag, '=') == [key] + Split(value, '=');
    SplitParts(value, '=');
    SplitFirst(value, '=');
    SplitParts(key, '=');
  }

  lemma SplitFirst(text: string, c: char)
    ensures |Split(text, c)| >= 1 && (Split(text, c)[0] == text <==> c !in text)
  {
    SplitParts(text, c);
    var i := IndexOf(text, c);
    if i.Some? {
      assert |text[..i.value]| < |text|;
    }
  }

  // ----- colon-joined ids

  /** `role:policy` decodes to the pair, for any policy, exactly when the role has no colon. */
  lemma RolePolicyDecodesIff(role: string, policy: string)
    ensures SplitOnce(role + ":" + policy, ':') == Some((role, policy)) <==> ':' !in role
  {
    var text := role + ":" + policy;
    if ':' !in role {
      FirstIsAt(role, ':', policy);
      assert text[..|role|] == role && text[|role| + 1..] == policy;
    } else {
      assert text[|role|] == ':' && text[..|role|] == role;
    }
  }

  lemma {:induction false} SplitParts(text: string, c: char)
    ensures |Split(text, c)| >= 1 && (|Split(text, c)| == 1 <==> c !in text)
    decreases |text|
  {
    var i := IndexOf(text, c);
    if i.Some? {
      SplitParts(text[i.value + 1..], c);
    }
  }

  /** `user:key` decodes exactly when neither part has a colon; otherwise the unpacking
      raises, so a wrong pair never comes out. */
  lemma UserKeyDecodesIff(user: string, key: string)
    ensures SplitPair(user + ":" + key, ':') == if ':' in user || ':' in key then None else Some((user, key))
  {
    var text := user + ":" + key;
    if ':' !in user {
      FirstIsAt(user, ':', key);
      assert text[..|user|] == user && text[|user| + 1..] == key;
      SplitParts(key, ':');
    } else {
      var i := IndexOf(user, ':').value;
      var rest := user[i + 1..] + ":" + key;
      assert text == user[..i] + [':'] + rest;
      FirstIsAt(user[..i], ':', rest);
      assert text[i + 1..] == rest;
      SplitParts(rest, ':');
      assert rest[|user[i + 1..]|] == ':';
      var j := IndexOf(rest, ':').value;
      SplitParts(rest[j + 1..], ':');
    }
  }
}
