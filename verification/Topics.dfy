/** The MQTT topic scheme {base}/{device}/{leaf}: its builder, its parser, and how they invert each other. */
module Topics {
  import opened Segments

  datatype Result<T> = Ok(value: T) | Err(message: string)
  datatype Option<T> = None | Some(value: T)

  datatype Leaf = Status | Command | Response {
    function Text(): string {
      match this
      case Status => "status"
      case Command => "command"
      case Response => "response"
    }
  }

  datatype ParsedTopic = ParsedTopic(baseTopic: string, deviceId: string, leaf: string)

  /** The white space that `String.prototype.trim` removes. */
  predicate IsSpace(c: char) {
    var n := c as int;
    || 9 <= n <= 13 || n == 0x20 || n == 0xA0 || n == 0x1680 || 0x2000 <= n <= 0x200A
    || n == 0x2028 || n == 0x2029 || n == 0x202F || n == 0x205F || n == 0x3000 || n == 0xFEFF
  }

  /** Empty, or nothing but blanks. */
  predicate Blank(text: string) {
    forall c | c in text :: IsSpace(c)
  }

  function TrimTrailingSlashes(text: string): string {
    if text != "" && text[|text| - 1] == '/' then TrimTrailingSlashes(text[..|text| - 1]) else text
  }

  function BuildTopic(baseTopic: string, deviceId: string, leaf: Leaf): Result<string> {
    if Blank(baseTopic) then Err("baseTopic is required")
    else if Blank(deviceId) then Err("deviceId is required")
    else Ok(TrimTrailingSlashes(baseTopic) + "/" + deviceId + "/" + leaf.Text())
  }

  function ParseTopic(topic: string): Option<ParsedTopic> {
    var parts := NonEmpty(Split(topic, '/'));
    if |parts| < 3 then None
    else
      var n := |parts|;
      var base := Join(parts[..n - 2], '/');
      if base == "" || parts[n - 2] == "" || parts[n - 1] == "" then None
      else Some(ParsedTopic(base, parts[n - 2], parts[n - 1]))
  }

  /** The pieces of a topic base that carry text. */
  function BaseSegments(baseTopic: string): seq<string> {
    NonEmpty(Split(baseTopic, '/'))
  }

  lemma {:induction false} TrimKeepsSegments(text: string)
    ensures BaseSegments(TrimTrailingSlashes(text)) == BaseSegments(text)
  {
    if text != "" && text[|text| - 1] == '/' {
      var front := text[..|text| - 1];
      TrimKeepsSegments(front);
      assert text == front + ['/'] + "";
      SplitAround(front, '/', "");
      NonEmptyConcat(Split(front, '/'), [""]);
    }
  }

  lemma JoinedIsNotEmpty(parts: seq<string>)
    requires |parts| >= 1 && parts[0] != ""
    ensures Join(parts, '/') != ""
  {
  }

  /** What the parser sees in a topic made of a base, a device part and a leaf. */
  lemma ParsedPieces(base: string, device: string, leaf: Leaf)
    ensures NonEmpty(Split(base + "/" + device + "/" + leaf.Text(), '/'))
         == BaseSegments(base) + NonEmpty(Split(device, '/')) + [leaf.Text()]
  {
    var tail := leaf.Text();
    assert '/' !in tail && tail != "";
    assert base + "/" + device + "/" + tail == base + ['/'] + (device + ['/'] + tail);
    SplitAround(base, '/', device + ['/'] + tail);
    SplitAround(device, '/', tail);
    SplitPlain(tail, '/');
    NonEmptyConcat(Split(base, '/'), Split(device, '/') + [tail]);
    NonEmptyConcat(Split(device, '/'), [tail]);
    assert NonEmpty([tail]) == [tail];
  }

  /**
   * Parsing what was built gives back the device, the leaf and the base without its empty segments,
   * exactly when the base has a non-empty segment and the device id holds no slash.
   */
  lemma ParseOfBuild(baseTopic: string, deviceId: string, leaf: Leaf)
    requires BuildTopic(baseTopic, deviceId, leaf).Ok?
    ensures ParseTopic(BuildTopic(baseTopic, deviceId, leaf).value)
         == Some(ParsedTopic(Join(BaseSegments(baseTopic), '/'), deviceId, leaf.Text()))
       <==> BaseSegments(baseTopic) != [] && '/' !in deviceId
  {
    var base := TrimTrailingSlashes(baseTopic);
    TrimKeepsSegments(baseTopic);
    ParsedPieces(base, deviceId, leaf);
    var segments := BaseSegments(baseTopic);
    var parts := segments + NonEmpty(Split(deviceId, '/')) + [leaf.Text()];
    var parsed := ParseTopic(BuildTopic(baseTopic, deviceId, leaf).value);
    assert deviceId != "";
    if '/' !in deviceId {
      SplitPlain(deviceId, '/');
      assert NonEmpty([deviceId]) == [deviceId];
      assert parts == segments + [deviceId, leaf.Text()];
      if segments != [] {
        assert parts[..|parts| - 2] == segments;
        assert segments[0] in segments;
        JoinedIsNotEmpty(segments);
      }
    } else if parsed.Some? {
      assert parsed.value.deviceId in parts;
      assert '/' !in parsed.value.deviceId;
    }
  }

  lemma {:induction false} JoinEndsPlain(parts: seq<string>)
    requires |parts| >= 1
    requires forall p | p in parts :: p != "" && '/' !in p
    ensures Join(parts, '/') != ""
    ensures Join(parts, '/')[|Join(parts, '/')| - 1] != '/'
  {
    assert parts[0] in parts;
    if |parts| == 1 {
      var last := parts[0];
      assert last[|last| - 1] in last;
    } else {
      forall p | p in parts[1..] ensures p in parts {}
      JoinEndsPlain(parts[1..]);
    }
  }

  lemma {:induction false} JoinTail(parts: seq<string>, device: string, leaf: string)
    requires |parts| >= 1
    ensures Join(parts + [device, leaf], '/') == Join(parts, '/') + "/" + device + "/" + leaf
  {
    var all := parts + [device, leaf];
    assert all[1..] == parts[1..] + [device, leaf];
    if |parts| == 1 {
      assert all[1..] == [device, leaf];
      assert all[1..][1..] == [leaf];
      assert Join([device, leaf], '/') == device + "/" + leaf;
      assert Join(all, '/') == parts[0] + "/" + (device + "/" + leaf);
    } else {
      JoinTail(parts[1..], device, leaf);
      assert Join(all, '/') == parts[0] + "/" + (Join(parts[1..], '/') + "/" + device + "/" + leaf);
    }
  }

  /**
   * Rebuilding a parsed topic never fails on its own account (only a blank base or device id does),
   * and it gives back the same text exactly when the topic had no empty segment.
   */
  lemma BuildOfParse(topic: string, leaf: Leaf)
    requires ParseTopic(topic).Some?
    requires ParseTopic(topic).value.leaf == leaf.Text()
    requires !Blank(ParseTopic(topic).value.baseTopic) && !Blank(ParseTopic(topic).value.deviceId)
    ensures var p := ParseTopic(topic).value;
      && BuildTopic(p.baseTopic, p.deviceId, leaf) == Ok(Join(NonEmpty(Split(topic, '/')), '/'))
      && (BuildTopic(p.baseTopic, p.deviceId, leaf) == Ok(topic) <==> "" !in Split(topic, '/'))
  {
    var p := ParseTopic(topic).value;
    var parts := NonEmpty(Split(topic, '/'));
    var front := parts[..|parts| - 2];
    forall q | q in front ensures q in parts {}
    JoinEndsPlain(front);
    assert TrimTrailingSlashes(p.baseTopic) == p.baseTopic;
    JoinTail(front, p.deviceId, p.leaf);
    assert parts == front + [p.deviceId, p.leaf];
    NonEmptySame(Split(topic, '/'));
    JoinSplit(topic, '/');
    if Join(parts, '/') == topic {
      SplitJoin(parts, '/');
    }
  }

  /** Every topic the parser accepts is one the builder could have produced, up to empty segments. */
  lemma ParseIsStable(topic: string)
    requires ParseTopic(topic).Some?
    ensures ParseTopic(Join(NonEmpty(Split(topic, '/')), '/')) == ParseTopic(topic)
  {
    var parts := NonEmpty(Split(topic, '/'));
    SplitJoin(parts, '/');
    NonEmptySame(parts);
  }

  // ----- builder and parser one by one -----

  /** The three leaves of the scheme. */
  lemma LeavesExactly(leaf: Leaf)
    ensures leaf == Status <==> leaf.Text() == "status"
    ensures leaf == Command <==> leaf.Text() == "command"
    ensures leaf == Response <==> leaf.Text() == "response"
  {
    assert "status"[0] == 's' && "command"[0] == 'c' && "response"[0] == 'r';
  }

  predicate AllSlashes(text: string) {
    forall c | c in text :: c == '/'
  }

  /** Exactly the slashes at the end go. */
  lemma {:induction false} TrimExactly(text: string)
    ensures var r := TrimTrailingSlashes(text);
      && |r| <= |text| && r == text[..|r|] && AllSlashes(text[|r|..])
      && (r != "" ==> r[|r| - 1] != '/')
  {
    if text != "" && text[|text| - 1] == '/' {
      var front := text[..|text| - 1];
      TrimExactly(front);
      var r := TrimTrailingSlashes(text);
      assert text[|r|..] == front[|r|..] + "/";
    }
  }

  /** Exactly a blank base, and else a blank device id, is refused. */
  lemma RefusedExactly(baseTopic: string, deviceId: string, leaf: Leaf)
    ensures var r := BuildTopic(baseTopic, deviceId, leaf);
      && (r == Err("baseTopic is required") <==> forall c | c in baseTopic :: IsSpace(c))
      && (r == Err("deviceId is required") <==> (exists c | c in baseTopic :: !IsSpace(c)) && forall c | c in deviceId :: IsSpace(c))
  {
    assert "baseTopic is required"[0] != "deviceId is required"[0];
  }

  /** Any other topic is the base without the slashes at its end, the device id and the leaf, in this order. */
  lemma BuildExactly(baseTopic: string, deviceId: string, leaf: Leaf) returns (base: string)
    ensures |base| <= |baseTopic| && base == baseTopic[..|base|] && AllSlashes(baseTopic[|base|..])
    ensures base != "" ==> base[|base| - 1] != '/'
    ensures var r := BuildTopic(baseTopic, deviceId, leaf); r.Ok? ==> r.value == base + "/" + deviceId + "/" + leaf.Text()
  {
    TrimExactly(baseTopic);
    base := TrimTrailingSlashes(baseTopic);
  }

  /** The parser's answer, told by the pieces of the topic that carry text: at least three, the last two being device and leaf. */
  lemma ParseExactly(topic: string, base: seq<string>, deviceId: string, leaf: string)
    ensures NonEmpty(Split(topic, '/')) == base + [deviceId, leaf] && base != []
      ==> ParseTopic(topic) == Some(ParsedTopic(Join(base, '/'), deviceId, leaf))
    ensures |NonEmpty(Split(topic, '/'))| < 3 ==> ParseTopic(topic) == None
  {
    var parts := NonEmpty(Split(topic, '/'));
    if parts == base + [deviceId, leaf] && base != [] {
      assert parts[..|parts| - 2] == base;
      assert base[0] in parts && parts[|parts| - 2] in parts && parts[|parts| - 1] in parts;
      JoinedIsNotEmpty(base);
    }
  }
}
