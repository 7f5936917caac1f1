/** Choosing payload numbers from a browser's offer (sdp-payload.hpp). */
module SdpPayload {
  import opened Bytes

  // ---- Strings

  predicate Digit(c: char) {
    '0' <= c <= '9'
  }

  predicate Digits(s: string) {
    forall i :: 0 <= i < |s| ==> Digit(s[i])
  }

  function Number(s: string): nat
    requires Digits(s)
  {
    if s == [] then 0 else Number(s[..|s| - 1]) * 10 + (s[|s| - 1] as int - '0' as int)
  }

  /** strstr. */
  predicate Contains(haystack: string, needle: string) {
    exists i :: 0 <= i <= |haystack| && StartsAt(haystack, needle, i)
  }

  predicate StartsAt(haystack: string, needle: string, i: nat) {
    i + |needle| <= |haystack| && haystack[i..i + |needle|] == needle
  }

  function Lower(c: char): char {
    if 'A' <= c <= 'Z' then (c as int + 32) as char else c
  }

  /** The needle at position i, whatever the case of its ASCII letters. */
  predicate MatchesAt(haystack: string, needle: string, i: nat) {
    i + |needle| <= |haystack| && forall k :: 0 <= k < |needle| ==> Lower(haystack[i + k]) == Lower(needle[k])
  }

  /** strstr_ci. A C string ends at its first zero, so it holds none. */
  method StrstrCi(haystack: string, needle: string) returns (found: bool)
    ensures found <==> exists i :: MatchesAt(haystack, needle, i)
  {
    if |needle| == 0 {
      assert MatchesAt(haystack, needle, 0);
      return true;
    }
    var h := 0;
    while h < |haystack|
      invariant 0 <= h <= |haystack|
      invariant forall i :: 0 <= i < h ==> !MatchesAt(haystack, needle, i)
    {
      var i := 0;
      while i < |needle| && h + i < |haystack| && Lower(haystack[h + i]) == Lower(needle[i])
        invariant 0 <= i <= |needle| && h + i <= |haystack|
        invariant forall k :: 0 <= k < i ==> Lower(haystack[h + k]) == Lower(needle[k])
      {
        i := i + 1;
      }
      if i == |needle| {
        assert MatchesAt(haystack, needle, h);
        return true;
      }
      h := h + 1;
    }
    return false;
  }

  /** The first position of a character from `from` on, or the length. */
  method Find(s: string, c: char, from: nat) returns (at: nat)
    requires from <= |s|
    ensures from <= at <= |s| && (at < |s| ==> s[at] == c)
    ensures forall k :: from <= k < at ==> s[k] != c
  {
    at := from;
    while at < |s| && s[at] != c
      invariant from <= at <= |s| && forall k :: from <= k < at ==> s[k] != c
    {
      at := at + 1;
    }
  }

  // ---- rtpmap

  /** A payload number that may go into a pipeline description, in front of an rtpmap's value. */
  predicate PayloadOf(value: string, payload: string) {
    1 <= |payload| <= 3 && Digits(payload) && Number(payload) <= 127 && payload + " " <= value
  }

  lemma PayloadShape(value: string, p: string)
    requires PayloadOf(value, p)
    ensures |p| < |value| && value[|p|] == ' ' && p == value[..|p|]
    ensures forall k :: 0 <= k < |p| ==> Digit(value[k])
  {
    assert (p + " ")[|p|] == ' ';
    forall k | 0 <= k < |p| ensures value[k] == p[k] {
      assert (p + " ")[k] == p[k];
    }
  }

  /** There is at most one. */
  lemma PayloadUnique(value: string, a: string, b: string)
    requires PayloadOf(value, a) && PayloadOf(value, b)
    ensures a == b
  {
    PayloadShape(value, a);
    PayloadShape(value, b);
    assert |a| == |b|;
  }

  /** rtpmap_payload: the payload number, or nothing if there is none that may be used. */
  method RtpmapPayload(value: string) returns (payload: string)
    ensures payload == "" <==> forall p :: !PayloadOf(value, p)
    ensures payload != "" ==> PayloadOf(value, payload)
  {
    hide PayloadOf, Number;
    payload := "";
    var space := Find(value, ' ', 0);
    PayloadIff(value, space);
    if space == |value| || space == 0 || space > 3 {
      return;
    }
    var candidate := value[..space];
    var i := 0;
    while i < |candidate|
      invariant 0 <= i <= |candidate| && forall k :: 0 <= k < i ==> Digit(candidate[k])
    {
      if !Digit(candidate[i]) {
        return;
      }
      i := i + 1;
    }
    if Number(candidate) <= 127 {
      payload := candidate;
      assert PayloadOf(value, payload);
    }
  }

  /** All that matters is what stands before the first space. */
  lemma PayloadIff(value: string, space: nat)
    requires space <= |value| && (space < |value| ==> value[space] == ' ')
    requires forall k :: 0 <= k < space ==> value[k] != ' '
    ensures forall p :: PayloadOf(value, p) <==>
              1 <= space <= 3 && space < |value| && p == value[..space] && Digits(p) && Number(p) <= 127
  {
    hide Number;
    forall p | PayloadOf(value, p) ensures |p| == space && p == value[..space] {
      PayloadShape(value, p);
    }
    if space < |value| {
      assert value[..space] + " " == value[..space + 1];
    }
  }

  // ---- fmtp

  /** The text between separators. */
  function Tokens(s: string): (tokens: seq<string>)
    ensures tokens != []
  {
    if s == [] then [""]
    else
      var before := Tokens(s[..|s| - 1]);
      if s[|s| - 1] == ';' then before + [""]
      else before[..|before| - 1] + [before[|before| - 1] + [s[|s| - 1]]]
  }

  /** The tokens again, with the separators between them. */
  function Joined(tokens: seq<string>): string {
    if tokens == [] then "" else if |tokens| == 1 then tokens[0]
    else Joined(tokens[..|tokens| - 1]) + ";" + tokens[|tokens| - 1]
  }

  /** The tokens are the text, cut at every separator. */
  lemma TokensMeaning(s: string)
    ensures Joined(Tokens(s)) == s && forall i :: 0 <= i < |Tokens(s)| ==> ';' !in Tokens(s)[i]
  {
    hide Tokens, Joined;
    TokensJoin(s);
    TokensArePlain(s);
  }

  lemma {:induction false} TokensJoin(s: string)
    ensures Joined(Tokens(s)) == s
  {
    hide Tokens, Joined;
    if s == [] {
      EmptyTokens();
      JoinedSnoc([], "");
      assert [] + [""] == [""];
    } else {
      var text, last := s[..|s| - 1], s[|s| - 1];
      TokensJoin(text);
      TokensSnoc(text, last);
      assert s == text + [last];
      var before := Tokens(text);
      if last == ';' {
        JoinedSnoc(before, "");
        assert text + ";" + "" == s;
      } else {
        JoinedLonger(before[..|before| - 1], before[|before| - 1], [last]);
        assert before[..|before| - 1] + [before[|before| - 1]] == before;
      }
    }
  }

  lemma {:induction false} TokensArePlain(s: string)
    ensures forall i :: 0 <= i < |Tokens(s)| ==> ';' !in Tokens(s)[i]
  {
    hide Tokens;
    if s == [] {
      EmptyTokens();
    } else {
      TokensArePlain(s[..|s| - 1]);
      TokensSnoc(s[..|s| - 1], s[|s| - 1]);
      assert s == s[..|s| - 1] + [s[|s| - 1]];
    }
  }

  lemma JoinedSnoc(tokens: seq<string>, token: string)
    ensures Joined(tokens + [token]) == if tokens == [] then token else Joined(tokens) + ";" + token
  {
    assert (tokens + [token])[..|tokens|] == tokens;
  }

  lemma JoinedLonger(front: seq<string>, last: string, more: string)
    ensures Joined(front + [last + more]) == Joined(front + [last]) + more
  {
    hide Joined;
    JoinedSnoc(front, last + more);
    JoinedSnoc(front, last);
    if front != [] {
      Associative(Joined(front) + ";", last, more);
    }
  }

  lemma Associative(a: string, b: string, c: string)
    ensures a + (b + c) == a + b + c
  {
  }

  /** A token with its surrounding spaces off: what is between the first and last other character. */
  ghost predicate Trimmed(token: string, trimmed: string) {
    exists i, j :: 0 <= i <= j <= |token| && trimmed == token[i..j]
      && (forall k :: 0 <= k < i || j <= k < |token| ==> token[k] == ' ')
      && (i < j ==> token[i] != ' ' && token[j - 1] != ' ')
  }

  /** The parameter is `key=value`, the key being all before the first equals sign. */
  ghost predicate Sets(token: string, key: string, value: string) {
    exists trimmed :: Trimmed(token, trimmed) && '=' !in key && trimmed == key + "=" + value
  }

  ghost predicate SetsKey(token: string, key: string) {
    exists value :: Sets(token, key, value)
  }

  /** The last parameter with the key, if there is one, has the value. */
  ghost predicate ProfileOk(tokens: seq<string>, key: string, value: string) {
    if tokens == [] then true
    else if SetsKey(tokens[|tokens| - 1], key) then Sets(tokens[|tokens| - 1], key, value)
    else ProfileOk(tokens[..|tokens| - 1], key, value)
  }

  lemma TrimUnique(token: string, a: string, b: string)
    requires Trimmed(token, a) && Trimmed(token, b)
    ensures a == b
  {
    var i, j :| 0 <= i <= j <= |token| && a == token[i..j]
      && (forall k :: 0 <= k < i || j <= k < |token| ==> token[k] == ' ')
      && (i < j ==> token[i] != ' ' && token[j - 1] != ' ');
    var p, q :| 0 <= p <= q <= |token| && b == token[p..q]
      && (forall k :: 0 <= k < p || q <= k < |token| ==> token[k] == ' ')
      && (p < q ==> token[p] != ' ' && token[q - 1] != ' ');
    if i < j {
      assert p <= i < q && p < j <= q;
      assert i <= p && q <= j;
    } else {
      assert forall k :: 0 <= k < |token| ==> token[k] == ' ';
    }
  }

  /** One token of the loop: whether it sets the key, and then to what. */
  method Parameter(token: string, key: string) returns (present: bool, value: string)
    ensures present <==> SetsKey(token, key)
    ensures present ==> forall v :: Sets(token, key, v) <==> v == value
  {
    var begin, end := 0, |token|;
    while begin < |token| && token[begin] == ' '
      invariant 0 <= begin <= |token| && forall k :: 0 <= k < begin ==> token[k] == ' '
    {
      begin := begin + 1;
    }
    while end > begin && token[end - 1] == ' '
      invariant begin <= end <= |token| && forall k :: end <= k < |token| ==> token[k] == ' '
    {
      end := end - 1;
    }
    var trimmed := token[begin..end];
    assert Trimmed(token, trimmed);
    var eq := Find(trimmed, '=', 0);
    forall v | Sets(token, key, v) ensures trimmed == key + "=" + v && eq == |key| {
      var other :| Trimmed(token, other) && other == key + "=" + v;
      TrimUnique(token, trimmed, other);
      assert trimmed[|key|] == '=';
      assert forall k :: 0 <= k < |key| ==> trimmed[k] == key[k];
    }
    present := eq < |trimmed| && trimmed[..eq] == key;
    value := if present then trimmed[eq + 1..] else "";
    if present {
      assert trimmed == key + "=" + value;
      assert Sets(token, key, value);
    }
  }

  lemma TokensSnoc(s: string, c: char)
    ensures var before := Tokens(s);
      Tokens(s + [c]) == if c == ';' then before + [""] else before[..|before| - 1] + [before[|before| - 1] + [c]]
  {
    assert (s + [c])[..|s|] == s;
  }

  /** Text without a separator only makes the last token longer. */
  lemma {:induction false} TokensGrow(s: string, t: string)
    requires ';' !in t
    ensures var before := Tokens(s); Tokens(s + t) == before[..|before| - 1] + [before[|before| - 1] + t]
  {
    hide Tokens;
    var before := Tokens(s);
    var all, line := before[..|before| - 1], before[|before| - 1];
    assert before == all + [line];
    if t == [] {
      assert s + t == s && line + t == line;
    } else {
      var last := |t| - 1;
      TokensGrow(s, t[..last]);
      assert s + t == s + t[..last] + [t[last]];
      TokensSnoc(s + t[..last], t[last]);
      var middle := all + [line + t[..last]];
      assert middle[..|middle| - 1] == all && line + t[..last] + [t[last]] == line + t;
    }
  }

  /** fmtp_profile_ok: the key is absent, or its last occurrence has exactly the value. */
  method FmtpProfileOk(params: string, key: string, value: string) returns (ok: bool)
    ensures ok <==> ProfileOk(Tokens(params), key, value)
  {
    hide Sets, SetsKey, Tokens, ProfileOk;
    ProfileNothing(key, value);
    var present, matches := false, false;
    var pos := 0;
    assert params[..0] == "";
    EmptyTokens();
    while pos <= |params|
      invariant 0 <= pos <= |params| + 1
      invariant pos <= |params| ==>
                  var before := Tokens(params[..pos]);
                  && before[|before| - 1] == ""
                  && (!present || matches <==> ProfileOk(before[..|before| - 1], key, value))
      invariant pos > |params| ==> (!present || matches <==> ProfileOk(Tokens(params), key, value))
      decreases |params| + 1 - pos
    {
      ghost var before := Tokens(params[..pos]);
      var semi := Find(params, ';', pos);
      var token := params[pos..semi];
      TokensGrow(params[..pos], token);
      assert params[..semi] == params[..pos] + token;
      assert "" + token == token;
      ghost var now := Tokens(params[..semi]);
      assert now == before[..|before| - 1] + [token];
      var has, found := Parameter(token, key);
      if has {
        present := true;
        matches := found == value;
      }
      ProfileSnoc(before[..|before| - 1], token, key, value);
      assert !present || matches <==> ProfileOk(now, key, value);
      if semi == |params| {
        assert params[..semi] == params;
        pos := |params| + 1;
      } else {
        TokensSnoc(params[..semi], ';');
        assert params[..semi + 1] == params[..semi] + [';'];
        assert (now + [""])[..|now|] == now;
        pos := semi + 1;
      }
    }
    ok := !present || matches;
  }

  lemma ProfileNothing(key: string, value: string)
    ensures ProfileOk([], key, value)
  {
  }

  /** A last parameter with the key decides; any other leaves the decision to those before it. */
  lemma ProfileSnoc(tokens: seq<string>, token: string, key: string, value: string)
    ensures ProfileOk(tokens + [token], key, value)
         == if SetsKey(token, key) then Sets(token, key, value) else ProfileOk(tokens, key, value)
  {
    hide SetsKey, Sets;
    assert (tokens + [token])[..|tokens|] == tokens;
  }

  lemma EmptyTokens()
    ensures Tokens("") == [""]
  {
  }

  // ---- The offer

  datatype Attribute = Attribute(key: string, value: Option<string>)

  datatype Media = Media(kind: string, attributes: seq<Attribute>)

  datatype Codec = Codec(id: string, rtpmap: string)

  const H264 := Codec("h264", "H264/90000")
  const H265 := Codec("h265", "H265/90000")
  const AV1 := Codec("av1", "AV1/90000")

  function ProfileKey(codec: Codec): string {
    if codec.id == "h265" then "profile-id" else "profile"
  }

  function ProfileValue(codec: Codec): string {
    if codec.id == "h265" then "1" else "0"
  }

  predicate Is(attribute: Attribute, key: string) {
    attribute.key == key && attribute.value.Some?
  }

  /** An fmtp attribute about this payload. */
  predicate FmtpFor(attribute: Attribute, payload: string) {
    Is(attribute, "fmtp") && payload + " " <= attribute.value.value
  }

  /** Constrained baseline with packetization mode 1. */
  predicate BaselineFmtp(attribute: Attribute, payload: string) {
    FmtpFor(attribute, payload) && Contains(attribute.value.value, "packetization-mode=1")
    && Contains(attribute.value.value, "profile-level-id=42e0")
  }

  ghost predicate HasBaseline(attributes: seq<Attribute>, payload: string) {
    exists f :: 0 <= f < |attributes| && BaselineFmtp(attributes[f], payload)
  }

  /** The first fmtp about the payload accepts the profile, or there is none. */
  ghost predicate ProfileAccepted(attributes: seq<Attribute>, payload: string, codec: Codec) {
    if attributes == [] then true
    else if FmtpFor(attributes[0], payload) then
      ProfileOk(Tokens(attributes[0].value.value[|payload| + 1..]), ProfileKey(codec), ProfileValue(codec))
    else ProfileAccepted(attributes[1..], payload, codec)
  }

  /** An rtpmap of the wanted codec, for an acceptable payload of that number. */
  ghost predicate Fits(media: Media, a: nat, codec: Codec, payload: string) {
    a < |media.attributes| && Is(media.attributes[a], "rtpmap") && media.kind == "video"
    && PayloadOf(media.attributes[a].value.value, payload)
    && if codec.id == "h264" then
         Contains(media.attributes[a].value.value, "H264/90000") && HasBaseline(media.attributes, payload)
       else
         (exists i :: MatchesAt(media.attributes[a].value.value, codec.rtpmap, i))
         && ProfileAccepted(media.attributes, payload, codec)
  }

  ghost predicate Opus(media: Media, a: nat, payload: string) {
    a < |media.attributes| && Is(media.attributes[a], "rtpmap") && media.kind == "audio"
    && PayloadOf(media.attributes[a].value.value, payload)
    && (Contains(media.attributes[a].value.value, " opus/48000/2") || Contains(media.attributes[a].value.value, " opus/48000"))
  }

  ghost predicate NoneFits(media: Media, codec: Codec, from: nat, to: nat) {
    forall a, p :: from <= a < to ==> !Fits(media, a, codec, p)
  }

  ghost predicate NoOpus(media: Media, to: nat) {
    forall a, p :: 0 <= a < to ==> !Opus(media, a, p)
  }

  /** What a section offers among its first n attributes: the last fit for H.264, else the first. */
  ghost predicate VideoOf(media: Media, n: nat, codec: Codec, video: string) {
    if video == "" then NoneFits(media, codec, 0, n)
    else exists a :: 0 <= a < n && Fits(media, a, codec, video)
                     && if codec.id == "h264" then NoneFits(media, codec, a + 1, n) else NoneFits(media, codec, 0, a)
  }

  ghost predicate AudioOf(media: Media, n: nat, audio: string) {
    if audio == "" then NoOpus(media, n)
    else exists a :: 0 <= a < n && Opus(media, a, audio) && NoOpus(media, a)
  }

  /** The video choice: that of the last section that has one. */
  ghost predicate VideoChoice(sections: seq<Media>, codec: Codec, video: string) {
    if video == "" then forall m :: 0 <= m < |sections| ==> VideoOf(sections[m], |sections[m].attributes|, codec, "")
    else exists m :: 0 <= m < |sections| && VideoOf(sections[m], |sections[m].attributes|, codec, video)
                     && forall k :: m < k < |sections| ==> VideoOf(sections[k], |sections[k].attributes|, codec, "")
  }

  /** The audio choice: that of the first section that has one. */
  ghost predicate AudioChoice(sections: seq<Media>, audio: string) {
    if audio == "" then forall m :: 0 <= m < |sections| ==> AudioOf(sections[m], |sections[m].attributes|, "")
    else exists m :: 0 <= m < |sections| && AudioOf(sections[m], |sections[m].attributes|, audio)
                     && forall k :: 0 <= k < m ==> AudioOf(sections[k], |sections[k].attributes|, "")
  }

  /** The inner search for H.264's fmtp. */
  method SearchBaseline(attributes: seq<Attribute>, payload: string) returns (found: bool)
    ensures found <==> HasBaseline(attributes, payload)
  {
    found := false;
    var f := 0;
    while f < |attributes|
      invariant 0 <= f <= |attributes|
      invariant found <==> exists k :: 0 <= k < f && BaselineFmtp(attributes[k], payload)
    {
      if BaselineFmtp(attributes[f], payload) {
        found := true;
      }
      f := f + 1;
    }
  }

  /** The inner search for H.265's and AV1's fmtp: the first one decides. */
  method SearchProfile(attributes: seq<Attribute>, payload: string, codec: Codec) returns (ok: bool)
    ensures ok <==> ProfileAccepted(attributes, payload, codec)
  {
    var f := 0;
    assert attributes[0..] == attributes;
    while f < |attributes|
      invariant 0 <= f <= |attributes|
      invariant ProfileAccepted(attributes, payload, codec) <==> ProfileAccepted(attributes[f..], payload, codec)
      decreases |attributes| - f
    {
      assert attributes[f..][0] == attributes[f] && attributes[f..][1..] == attributes[f + 1..];
      if FmtpFor(attributes[f], payload) {
        ok := FmtpProfileOk(attributes[f].value.value[|payload| + 1..], ProfileKey(codec), ProfileValue(codec));
        return;
      }
      f := f + 1;
    }
    return true;
  }

  /** The middle loop: one section of the offer, with what was chosen from those before it. */
  method SelectFrom(media: Media, codec: Codec, video0: string, audio0: string)
    returns (video: string, audio: string, ghost here: string, ghost heard: string)
    requires codec in [H264, H265, AV1]
    ensures VideoOf(media, |media.attributes|, codec, here) && video == if here == "" then video0 else here
    ensures AudioOf(media, |media.attributes|, heard) && audio == if audio0 == "" then heard else audio0
  {
    hide Fits, Opus, PayloadOf;
    video, audio, here, heard := video0, audio0, "", "";
    var videoMatched, a := false, 0;
    while a < |media.attributes|
      invariant 0 <= a <= |media.attributes|
      invariant VideoOf(media, a, codec, here) && video == if here == "" then video0 else here
      invariant AudioOf(media, a, heard) && audio == if audio0 == "" then heard else audio0
      invariant videoMatched <==> codec != H264 && here != ""
      invariant videoMatched ==> media.kind == "video"
      decreases |media.attributes| - a
    {
      if codec.id != "h264" && videoMatched {
        RestDoesNotMatter(media, a, codec, here, heard);
        break;
      }
      var fits, opus, candidate := Judge(media, a, codec);
      if fits {
        video, here := candidate, candidate;
        videoMatched := codec.id != "h264";
      }
      if opus && audio == "" {
        audio := candidate;
      }
      if opus && heard == "" {
        heard := candidate;
      }
      a := a + 1;
    }
  }

  /** The body of the middle loop: what one attribute is good for. */
  method Judge(media: Media, a: nat, codec: Codec) returns (fits: bool, opus: bool, candidate: string)
    requires codec in [H264, H265, AV1] && a < |media.attributes|
    ensures fits ==> candidate != "" && Fits(media, a, codec, candidate) && media.kind == "video"
    ensures !fits ==> forall p :: !Fits(media, a, codec, p)
    ensures opus ==> candidate != "" && Opus(media, a, candidate)
    ensures !opus ==> forall p :: !Opus(media, a, p)
  {
    hide PayloadOf, ProfileAccepted, HasBaseline, Contains, MatchesAt;
    var attribute := media.attributes[a];
    fits, opus, candidate := false, false, "";
    if attribute.key != "rtpmap" || attribute.value.None? {
      return;
    }
    candidate := RtpmapPayload(attribute.value.value);
    if candidate == "" {
      return;
    }
    forall p | PayloadOf(attribute.value.value, p) ensures p == candidate {
      PayloadUnique(attribute.value.value, p, candidate);
    }
    if media.kind == "video" && codec.id == "h264" && Contains(attribute.value.value, "H264/90000") {
      fits := SearchBaseline(media.attributes, candidate);
    } else if media.kind == "video" && codec.id != "h264" {
      var named := StrstrCi(attribute.value.value, codec.rtpmap);
      if named {
        fits := SearchProfile(media.attributes, candidate, codec);
      }
    }
    opus := media.kind == "audio"
            && (Contains(attribute.value.value, " opus/48000/2") || Contains(attribute.value.value, " opus/48000"));
  }

  /** Once a video section has its first match, the rest of it changes nothing. */
  lemma RestDoesNotMatter(media: Media, a: nat, codec: Codec, here: string, heard: string)
    requires codec.id != "h264" && here != "" && media.kind == "video" && a <= |media.attributes|
    requires VideoOf(media, a, codec, here) && AudioOf(media, a, heard)
    ensures VideoOf(media, |media.attributes|, codec, here) && AudioOf(media, |media.attributes|, heard)
  {
  }

  lemma SnocVideo(sections: seq<Media>, media: Media, codec: Codec, video: string, here: string)
    requires VideoChoice(sections, codec, video) && VideoOf(media, |media.attributes|, codec, here)
    ensures VideoChoice(sections + [media], codec, if here == "" then video else here)
  {
    hide VideoOf;
    var all, n := sections + [media], |sections|;
    assert all[n] == media && forall k :: 0 <= k < n ==> all[k] == sections[k];
    if here == "" && video != "" {
      var m :| 0 <= m < n && VideoOf(sections[m], |sections[m].attributes|, codec, video)
               && forall k :: m < k < n ==> VideoOf(sections[k], |sections[k].attributes|, codec, "");
      assert VideoOf(all[m], |all[m].attributes|, codec, video);
    }
  }

  lemma SnocAudio(sections: seq<Media>, media: Media, audio: string, heard: string)
    requires AudioChoice(sections, audio) && AudioOf(media, |media.attributes|, heard)
    ensures AudioChoice(sections + [media], if audio == "" then heard else audio)
  {
    hide AudioOf;
    var all, n := sections + [media], |sections|;
    assert all[n] == media && forall k :: 0 <= k < n ==> all[k] == sections[k];
    if audio != "" {
      var m :| 0 <= m < n && AudioOf(sections[m], |sections[m].attributes|, audio)
               && forall k :: 0 <= k < m ==> AudioOf(sections[k], |sections[k].attributes|, "");
      assert AudioOf(all[m], |all[m].attributes|, audio);
    }
  }

  /** select_payloads. */
  method SelectPayloads(sections: seq<Media>, codec: Codec) returns (video: string, audio: string)
    requires codec in [H264, H265, AV1]
    ensures VideoChoice(sections, codec, video) && AudioChoice(sections, audio)
  {
    hide VideoOf, AudioOf;
    video, audio := "", "";
    var m := 0;
    while m < |sections|
      invariant 0 <= m <= |sections|
      invariant VideoChoice(sections[..m], codec, video) && AudioChoice(sections[..m], audio)
    {
      ghost var video0, audio0 := video, audio;
      ghost var here, heard;
      video, audio, here, heard := SelectFrom(sections[m], codec, video, audio);
      SnocVideo(sections[..m], sections[m], codec, video0, here);
      SnocAudio(sections[..m], sections[m], audio0, heard);
      assert sections[..m + 1] == sections[..m] + [sections[m]];
      m := m + 1;
    }
    assert sections[..|sections|] == sections;
  }

  // ---- When there is a choice, said of the offer

  /** An attribute that is an rtpmap with an acceptable payload number. */
  predicate Maps(attribute: Attribute, payload: string) {
    attribute.key == "rtpmap" && attribute.value.Some? && PayloadOf(attribute.value.value, payload)
  }

  /** An attribute that is an fmtp about the payload. */
  predicate Formats(attribute: Attribute, payload: string) {
    attribute.key == "fmtp" && attribute.value.Some? && payload + " " <= attribute.value.value
  }

  /** Some attribute offers H.264, and some fmtp gives it mode 1 and the constrained baseline. */
  ghost predicate OffersH264(media: Media, payload: string) {
    && media.kind == "video"
    && (exists a :: 0 <= a < |media.attributes| && Maps(media.attributes[a], payload)
                    && Contains(media.attributes[a].value.value, "H264/90000"))
    && (exists f :: 0 <= f < |media.attributes| && Formats(media.attributes[f], payload)
                    && Contains(media.attributes[f].value.value, "packetization-mode=1")
                    && Contains(media.attributes[f].value.value, "profile-level-id=42e0"))
  }

  lemma AnyFits(media: Media, codec: Codec)
    ensures VideoOf(media, |media.attributes|, codec, "") <==> forall a, p :: !Fits(media, a, codec, p)
  {
    hide PayloadOf, HasBaseline, ProfileAccepted, Contains, MatchesAt;
  }

  lemma H264Fits(media: Media)
    ensures (exists a, p :: Fits(media, a, H264, p)) <==> exists p :: OffersH264(media, p)
  {
    hide PayloadOf, Contains, MatchesAt, ProfileAccepted;
    if a: nat, p: string :| Fits(media, a, H264, p) {
      assert Maps(media.attributes[a], p);
      var f :| 0 <= f < |media.attributes| && BaselineFmtp(media.attributes[f], p);
      assert Formats(media.attributes[f], p);
      assert OffersH264(media, p);
    }
    if p: string :| OffersH264(media, p) {
      var a :| 0 <= a < |media.attributes| && Maps(media.attributes[a], p)
               && Contains(media.attributes[a].value.value, "H264/90000");
      var f :| 0 <= f < |media.attributes| && Formats(media.attributes[f], p)
               && Contains(media.attributes[f].value.value, "packetization-mode=1")
               && Contains(media.attributes[f].value.value, "profile-level-id=42e0");
      assert BaselineFmtp(media.attributes[f], p) && HasBaseline(media.attributes, p);
      assert Fits(media, a, H264, p);
    }
  }

  /** There is a choice for H.264 exactly if some video section offers it in that form. */
  lemma H264ChosenIff(sections: seq<Media>, video: string)
    requires VideoChoice(sections, H264, video)
    ensures video != "" <==> exists m, p :: 0 <= m < |sections| && OffersH264(sections[m], p)
  {
    hide VideoOf, OffersH264, Fits;
    ChosenMeans(sections, H264, video);
    forall m | 0 <= m < |sections| {
      H264Fits(sections[m]);
    }
  }

  lemma ChosenMeans(sections: seq<Media>, codec: Codec, video: string)
    requires VideoChoice(sections, codec, video)
    ensures video != "" <==> exists m, a, p :: 0 <= m < |sections| && Fits(sections[m], a, codec, p)
  {
    hide VideoOf, Fits;
    forall m | 0 <= m < |sections| {
      AnyFits(sections[m], codec);
    }
    if video != "" {
      var m :| 0 <= m < |sections| && VideoOf(sections[m], |sections[m].attributes|, codec, video);
      VideoOfFits(sections[m], |sections[m].attributes|, codec, video);
    }
  }

  lemma VideoOfFits(media: Media, n: nat, codec: Codec, video: string)
    requires VideoOf(media, n, codec, video) && video != ""
    ensures exists a :: Fits(media, a, codec, video)
  {
    hide Fits;
  }

  ghost predicate FirstFormat(attributes: seq<Attribute>, f: nat, payload: string) {
    f < |attributes| && Formats(attributes[f], payload) && forall g :: 0 <= g < f ==> !Formats(attributes[g], payload)
  }

  /** The last parameter that sets the key sets it to this value. */
  ghost predicate LastSets(tokens: seq<string>, key: string, value: string) {
    forall t :: 0 <= t < |tokens| && SetsKey(tokens[t], key) && (forall u :: t < u < |tokens| ==> !SetsKey(tokens[u], key)) ==>
      Sets(tokens[t], key, value)
  }

  lemma {:induction false} ProfileMeaning(tokens: seq<string>, key: string, value: string)
    ensures ProfileOk(tokens, key, value) <==> LastSets(tokens, key, value)
  {
    hide SetsKey, Sets;
    if tokens != [] {
      var last := |tokens| - 1;
      ProfileMeaning(tokens[..last], key, value);
      if SetsKey(tokens[last], key) {
        assert LastSets(tokens, key, value) <==> Sets(tokens[last], key, value);
      } else {
        LastNotSet(tokens, key, value);
      }
    }
  }

  /** A last parameter without the key does not matter. */
  lemma LastNotSet(tokens: seq<string>, key: string, value: string)
    requires tokens != [] && !SetsKey(tokens[|tokens| - 1], key)
    ensures LastSets(tokens, key, value) <==> LastSets(tokens[..|tokens| - 1], key, value)
  {
    hide SetsKey, Sets;
    var before := tokens[..|tokens| - 1];
    assert forall t :: 0 <= t < |before| ==> tokens[t] == before[t];
    if LastSets(tokens, key, value) {
      forall t | 0 <= t < |before| && SetsKey(before[t], key) && (forall u :: t < u < |before| ==> !SetsKey(before[u], key))
        ensures Sets(before[t], key, value)
      {
        assert forall u :: t < u < |tokens| ==> u == |before| || tokens[u] == before[u];
        assert SetsKey(tokens[t], key);
      }
    }
    if LastSets(before, key, value) {
      forall t | 0 <= t < |tokens| && SetsKey(tokens[t], key) && (forall u :: t < u < |tokens| ==> !SetsKey(tokens[u], key))
        ensures Sets(tokens[t], key, value)
      {
        assert SetsKey(before[t], key);
      }
    }
  }

  /** The first fmtp about the payload, if there is one, has parameters that set the key to the value. */
  ghost predicate AcceptsFirst(attributes: seq<Attribute>, payload: string, key: string, value: string) {
    forall f: nat :: FirstFormat(attributes, f, payload) ==> LastSets(Tokens(attributes[f].value.value[|payload| + 1..]), key, value)
  }

  lemma {:induction false} AcceptedMeaning(attributes: seq<Attribute>, payload: string, codec: Codec)
    ensures ProfileAccepted(attributes, payload, codec)
       <==> AcceptsFirst(attributes, payload, ProfileKey(codec), ProfileValue(codec))
  {
    hide LastSets, ProfileOk, Tokens, ProfileKey, ProfileValue;
    if attributes != [] {
      var rest := attributes[1..];
      if Formats(attributes[0], payload) {
        assert FirstFormat(attributes, 0, payload) && FmtpFor(attributes[0], payload);
        ProfileMeaning(Tokens(attributes[0].value.value[|payload| + 1..]), ProfileKey(codec), ProfileValue(codec));
        assert forall f: nat :: FirstFormat(attributes, f, payload) ==> f == 0;
      } else {
        AcceptedMeaning(rest, payload, codec);
        forall f: nat {
          NextFormat(attributes, f, payload);
        }
        assert forall f: nat :: FirstFormat(attributes, f, payload) ==> f > 0 && attributes[f] == rest[f - 1];
        assert forall f: nat :: FirstFormat(rest, f, payload) ==> FirstFormat(attributes, f + 1, payload);
      }
    }
  }

  lemma NextFormat(attributes: seq<Attribute>, f: nat, payload: string)
    requires attributes != [] && !Formats(attributes[0], payload)
    ensures FirstFormat(attributes[1..], f, payload) <==> FirstFormat(attributes, f + 1, payload)
    ensures FirstFormat(attributes, f, payload) ==> f > 0 && FirstFormat(attributes[1..], f - 1, payload)
  {
    var rest := attributes[1..];
    assert forall g :: 0 <= g < |rest| ==> rest[g] == attributes[g + 1];
    if FirstFormat(rest, f, payload) {
      forall g | 0 <= g < f + 1 ensures !Formats(attributes[g], payload) {
        assert g == 0 || attributes[g] == rest[g - 1];
      }
    }
  }

  /** Some attribute names the codec, whatever its case, and the first fmtp does not rule it out. */
  ghost predicate OffersCodec(media: Media, name: string, key: string, value: string, payload: string) {
    && media.kind == "video" && AcceptsFirst(media.attributes, payload, key, value)
    && exists a :: 0 <= a < |media.attributes| && Maps(media.attributes[a], payload)
                   && exists i :: MatchesAt(media.attributes[a].value.value, name, i)
  }

  lemma CodecFits(media: Media, codec: Codec)
    requires codec in [H265, AV1]
    ensures (exists a, p :: Fits(media, a, codec, p))
       <==> exists p :: OffersCodec(media, codec.rtpmap, ProfileKey(codec), ProfileValue(codec), p)
  {
    hide PayloadOf, Contains, MatchesAt, ProfileAccepted, AcceptsFirst, HasBaseline, ProfileKey, ProfileValue;
    if a: nat, p: string :| Fits(media, a, codec, p) {
      AcceptedMeaning(media.attributes, p, codec);
      assert Maps(media.attributes[a], p);
      assert OffersCodec(media, codec.rtpmap, ProfileKey(codec), ProfileValue(codec), p);
    }
    if p: string :| OffersCodec(media, codec.rtpmap, ProfileKey(codec), ProfileValue(codec), p) {
      AcceptedMeaning(media.attributes, p, codec);
      var a :| 0 <= a < |media.attributes| && Maps(media.attributes[a], p)
               && exists i :: MatchesAt(media.attributes[a].value.value, codec.rtpmap, i);
      assert Fits(media, a, codec, p);
    }
  }

  lemma H265ChosenIff(sections: seq<Media>, video: string)
    requires VideoChoice(sections, H265, video)
    ensures video != "" <==> exists m, p :: 0 <= m < |sections| && OffersCodec(sections[m], "H265/90000", "profile-id", "1", p)
  {
    hide VideoOf, OffersCodec, Fits;
    ChosenMeans(sections, H265, video);
    assert H265.rtpmap == "H265/90000" && ProfileKey(H265) == "profile-id" && ProfileValue(H265) == "1";
    forall m | 0 <= m < |sections| {
      CodecFits(sections[m], H265);
    }
  }

  lemma AV1ChosenIff(sections: seq<Media>, video: string)
    requires VideoChoice(sections, AV1, video)
    ensures video != "" <==> exists m, p :: 0 <= m < |sections| && OffersCodec(sections[m], "AV1/90000", "profile", "0", p)
  {
    hide VideoOf, OffersCodec, Fits;
    ChosenMeans(sections, AV1, video);
    assert AV1.rtpmap == "AV1/90000" && ProfileKey(AV1) == "profile" && ProfileValue(AV1) == "0";
    forall m | 0 <= m < |sections| {
      CodecFits(sections[m], AV1);
    }
  }

  /** There is a choice for Opus exactly if an audio section maps a payload to it; its channels do not matter. */
  lemma OpusChosenIff(sections: seq<Media>, audio: string)
    requires AudioChoice(sections, audio)
    ensures audio != "" <==> exists m, a, p ::
              && 0 <= m < |sections| && sections[m].kind == "audio" && 0 <= a < |sections[m].attributes|
              && Maps(sections[m].attributes[a], p) && Contains(sections[m].attributes[a].value.value, " opus/48000")
  {
    hide AudioOf, Contains, PayloadOf;
    forall m | 0 <= m < |sections| {
      OpusOffered(sections[m]);
    }
    if audio != "" {
      var m :| 0 <= m < |sections| && AudioOf(sections[m], |sections[m].attributes|, audio);
      var a := OpusAt(sections[m], |sections[m].attributes|, audio);
      OpusMeans(sections[m], a, audio);
    }
  }

  lemma OpusAt(media: Media, n: nat, audio: string) returns (a: nat)
    requires AudioOf(media, n, audio) && audio != "" && n <= |media.attributes|
    ensures a < n && Opus(media, a, audio)
  {
    a :| a < n && Opus(media, a, audio);
  }

  lemma OpusMeans(media: Media, a: nat, p: string)
    ensures Opus(media, a, p) <==> a < |media.attributes| && media.kind == "audio" && Maps(media.attributes[a], p)
                                   && Contains(media.attributes[a].value.value, " opus/48000")
  {
    hide PayloadOf, Contains;
    if Opus(media, a, p) {
      assert " opus/48000" + "/2" == " opus/48000/2";
      ContainsLess(media.attributes[a].value.value, " opus/48000", "/2");
    }
  }

  lemma ContainsLess(haystack: string, needle: string, more: string)
    ensures Contains(haystack, needle + more) ==> Contains(haystack, needle)
  {
    if Contains(haystack, needle + more) {
      var i :| 0 <= i <= |haystack| && StartsAt(haystack, needle + more, i);
      assert haystack[i..i + |needle|] == (needle + more)[..|needle|];
      assert StartsAt(haystack, needle, i);
    }
  }

  lemma OpusOffered(media: Media)
    ensures AudioOf(media, |media.attributes|, "") <==> forall a, p :: !Opus(media, a, p)
    ensures forall a: nat, p: string :: Opus(media, a, p) <==>
              a < |media.attributes| && media.kind == "audio" && Maps(media.attributes[a], p)
              && Contains(media.attributes[a].value.value, " opus/48000")
  {
    hide Opus;
    forall a: nat, p: string {
      OpusMeans(media, a, p);
    }
    if forall a: nat, p: string :: !Opus(media, a, p) {
      assert AudioOf(media, |media.attributes|, "");
    }
  }

  /** A declared choice is unique, so it pins the result down. */
  lemma ChoiceUnique(sections: seq<Media>, codec: Codec, v: string, w: string)
    requires VideoChoice(sections, codec, v) && VideoChoice(sections, codec, w)
    ensures v == w
  {
    hide VideoOf;
    forall m, x: string, y: string | 0 <= m < |sections| && VideoOf(sections[m], |sections[m].attributes|, codec, x)
                                     && VideoOf(sections[m], |sections[m].attributes|, codec, y)
      ensures x == y
    {
      VideoOfUnique(sections[m], |sections[m].attributes|, codec, x, y);
    }
    if v != "" && w != "" {
      var i :| 0 <= i < |sections| && VideoOf(sections[i], |sections[i].attributes|, codec, v)
               && forall k :: i < k < |sections| ==> VideoOf(sections[k], |sections[k].attributes|, codec, "");
      var j :| 0 <= j < |sections| && VideoOf(sections[j], |sections[j].attributes|, codec, w)
               && forall k :: j < k < |sections| ==> VideoOf(sections[k], |sections[k].attributes|, codec, "");
      assert i == j;
    }
  }

  lemma VideoOfUnique(media: Media, n: nat, codec: Codec, v: string, w: string)
    requires VideoOf(media, n, codec, v) && VideoOf(media, n, codec, w)
    ensures v == w
  {
    hide PayloadOf, HasBaseline, ProfileAccepted, Contains, MatchesAt;
    if v != "" && w != "" {
      var a :| 0 <= a < n && Fits(media, a, codec, v)
               && if codec.id == "h264" then NoneFits(media, codec, a + 1, n) else NoneFits(media, codec, 0, a);
      var b :| 0 <= b < n && Fits(media, b, codec, w)
               && if codec.id == "h264" then NoneFits(media, codec, b + 1, n) else NoneFits(media, codec, 0, b);
      assert a == b;
      PayloadUnique(media.attributes[a].value.value, v, w);
    }
  }

  /** Whatever is chosen is safe to put into a pipeline description: at most three digits, to 127. */
  lemma ChoiceIsPayload(sections: seq<Media>, codec: Codec, video: string, audio: string)
    requires VideoChoice(sections, codec, video) && AudioChoice(sections, audio)
    ensures video == "" || (1 <= |video| <= 3 && Digits(video) && Number(video) <= 127)
    ensures audio == "" || (1 <= |audio| <= 3 && Digits(audio) && Number(audio) <= 127)
  {
    hide HasBaseline, ProfileAccepted, Contains, MatchesAt;
    if video != "" {
      var m :| 0 <= m < |sections| && VideoOf(sections[m], |sections[m].attributes|, codec, video);
      var a :| 0 <= a < |sections[m].attributes| && Fits(sections[m], a, codec, video);
    }
    if audio != "" {
      var m :| 0 <= m < |sections| && AudioOf(sections[m], |sections[m].attributes|, audio);
      var a :| 0 <= a < |sections[m].attributes| && Opus(sections[m], a, audio);
    }
  }
}
