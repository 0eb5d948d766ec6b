/**
 * The hook that refuses messages with broken text.  A message is a sequence of UTF-16 code units;
 * the hook looks at neighbouring units only, and agrees with decoding the whole message.
 */
module EncodingGuard {
  import opened Common

  type Unit = u: nat | u < 0x10000

  type Text = seq<Unit>

  predicate High(u: Unit) { 0xD800 <= u <= 0xDBFF }

  predicate Low(u: Unit) { 0xDC00 <= u <= 0xDFFF }

  const REPLACEMENT := 0xFFFD

  // ---------- the regular expression ----------

  /** One of its three alternatives matches at position `i`. */
  predicate BadAt(s: Text, i: nat)
    requires i < |s|
  {
    || s[i] == REPLACEMENT
    || (High(s[i]) && !(i + 1 < |s| && Low(s[i + 1])))
    || (Low(s[i]) && !(i > 0 && High(s[i - 1])))
  }

  predicate Matches(s: Text) { exists i :: 0 <= i < |s| && BadAt(s, i) }

  // ---------- UTF-16: sections 2.1 and 2.2 of RFC 2781 ----------

  predicate Scalar(c: nat) { c < 0xD800 || 0xE000 <= c < 0x110000 }

  function EncodeOne(c: nat): (s: Text)
    requires Scalar(c)
    ensures |s| == 1 || |s| == 2
  {
    if c < 0x10000 then [c]
    else [0xD800 + (c - 0x10000) / 0x400, 0xDC00 + (c - 0x10000) % 0x400]
  }

  function Encode(cs: seq<nat>): Text
    requires forall i :: 0 <= i < |cs| ==> Scalar(cs[i])
  {
    if cs == [] then [] else EncodeOne(cs[0]) + Encode(cs[1..])
  }

  function Decode(s: Text): (r: Option<seq<nat>>)
    ensures r.Some? ==> forall i :: 0 <= i < |r.value| ==> Scalar(r.value[i])
  {
    if s == [] then Some([])
    else if !High(s[0]) && !Low(s[0]) then
      var rest := Decode(s[1..]);
      if rest.Some? then Some([s[0] as nat] + rest.value) else None
    else if Low(s[0]) || |s| == 1 || !Low(s[1]) then None
    else
      var rest := Decode(s[2..]);
      if rest.Some? then Some([(s[0] as nat - 0xD800) * 0x400 + (s[1] as nat - 0xDC00) + 0x10000] + rest.value) else None
  }

  // ---------- the local test and the whole decoding ----------

  lemma {:induction false} SkipPlain(s: Text)
    requires s != [] && !High(s[0]) && !Low(s[0])
    ensures Matches(s) <==> s[0] == REPLACEMENT || Matches(s[1..])
  {
    forall i | 0 <= i < |s| - 1 ensures BadAt(s, i + 1) <==> BadAt(s[1..], i) {
    }
    if s[0] == REPLACEMENT { assert BadAt(s, 0); }
    if Matches(s[1..]) {
      var i :| 0 <= i < |s[1..]| && BadAt(s[1..], i);
      assert BadAt(s, i + 1);
    }
    if Matches(s) && s[0] != REPLACEMENT {
      var i :| 0 <= i < |s| && BadAt(s, i);
      assert BadAt(s[1..], i - 1);
    }
  }

  lemma {:induction false} SkipPair(s: Text)
    requires |s| >= 2 && High(s[0]) && Low(s[1])
    ensures Matches(s) <==> Matches(s[2..])
  {
    forall i | 0 <= i < |s| - 2 ensures BadAt(s, i + 2) <==> BadAt(s[2..], i) {
    }
    if Matches(s[2..]) {
      var i :| 0 <= i < |s[2..]| && BadAt(s[2..], i);
      assert BadAt(s, i + 2);
    }
    if Matches(s) {
      var i :| 0 <= i < |s| && BadAt(s, i);
      assert BadAt(s[2..], i - 2);
    }
  }

  /** A text passes exactly when it decodes without error and contains no replacement character. */
  lemma {:induction false} PassesIffDecodes(s: Text)
    ensures !Matches(s) <==> Decode(s).Some? && REPLACEMENT !in Decode(s).value
  {
    if s == [] {
    } else if !High(s[0]) && !Low(s[0]) {
      SkipPlain(s);
      PassesIffDecodes(s[1..]);
    } else if Low(s[0]) || |s| == 1 || !Low(s[1]) {
      assert BadAt(s, 0);
    } else {
      SkipPair(s);
      PassesIffDecodes(s[2..]);
    }
  }

  /** Encoding what a text decodes to gives the text back. */
  lemma {:induction false} EncodeDecode(s: Text)
    requires Decode(s).Some?
    ensures Encode(Decode(s).value) == s
  {
    if s == [] {
    } else if !High(s[0]) && !Low(s[0]) {
      EncodeDecode(s[1..]);
      assert Decode(s).value[1..] == Decode(s[1..]).value;
      assert s == [s[0]] + s[1..];
    } else {
      EncodeDecode(s[2..]);
      assert Decode(s).value[1..] == Decode(s[2..]).value;
      PairOf(s[0] - 0xD800, s[1] - 0xDC00);
      assert s == [s[0], s[1]] + s[2..];
    }
  }

  lemma {:induction false} PairOf(hi: nat, lo: nat)
    requires hi < 0x400 && lo < 0x400
    ensures Scalar(hi * 0x400 + lo + 0x10000)
    ensures EncodeOne(hi * 0x400 + lo + 0x10000) == [0xD800 + hi, 0xDC00 + lo]
  {
  }

  /** And every sequence of scalar values survives encoding and decoding. */
  lemma {:induction false} DecodeEncode(cs: seq<nat>)
    requires forall i :: 0 <= i < |cs| ==> Scalar(cs[i])
    ensures Decode(Encode(cs)) == Some(cs)
  {
    if cs != [] {
      DecodeEncode(cs[1..]);
      var s := Encode(cs);
      if cs[0] < 0x10000 {
        assert s[1..] == Encode(cs[1..]);
      } else {
        assert s[2..] == Encode(cs[1..]);
      }
      assert cs == [cs[0]] + cs[1..];
    }
  }

  // ---------- the hook ----------

  /** The fields of the body the hook reads; a field that is not a string is None. */
  datatype Request = Request(verb: string, url: string, kind: Option<string>, message: Option<Text>)

  const REPLY := "/api/agent/reply"
  const RELAY := "/api/relay/"
  const SEND := "/send-command"

  predicate StartsWith(s: string, prefix: string) { prefix <= s }

  /** The anchored pattern of the send-command path: something without a slash between two fixed parts. */
  predicate IsSendCommand(url: string) {
    && |url| > |RELAY| + |SEND|
    && url[..|RELAY|] == RELAY
    && url[|url| - |SEND|..] == SEND
    && '/' !in url[|RELAY|..|url| - |SEND|]
  }

  /** The message the hook looks at, if any. */
  function Guarded(r: Request): Option<Text> {
    if r.verb != "POST" then None
    else if StartsWith(r.url, REPLY) then r.message
    else if IsSendCommand(r.url) && r.kind in {Some("send_message"), Some("send_broadcast")} then r.message
    else None
  }

  /** The hook; true is the 400 reply. */
  method PreHandler(r: Request) returns (refused: bool)
    ensures refused <==>
      && Guarded(r).Some?
      && (Decode(Guarded(r).value).None? || REPLACEMENT in Decode(Guarded(r).value).value)
  {
    if r.verb != "POST" { return false; }
    var m: Option<Text> := None;
    if StartsWith(r.url, REPLY) {
      m := r.message;
    } else if IsSendCommand(r.url) {
      if r.kind == Some("send_message") || r.kind == Some("send_broadcast") {
        m := r.message;
      }
    } else {
      return false;
    }
    if m.None? { return false; }
    PassesIffDecodes(m.value);
    return Matches(m.value);
  }

  /** The relay path is matched exactly for a non-empty id without a slash. */
  lemma {:induction false} SendCommandIff(url: string)
    ensures IsSendCommand(url) <==> exists id :: Splits(url, id)
  {
    if IsSendCommand(url) {
      var id := url[|RELAY|..|url| - |SEND|];
      assert url == RELAY + id + SEND;
      assert Splits(url, id);
    }
    if exists id :: Splits(url, id) {
      var id :| Splits(url, id);
      assert url[|RELAY|..|url| - |SEND|] == id;
    }
  }

  predicate Splits(url: string, id: string) {
    id != "" && '/' !in id && url == RELAY + id + SEND
  }

  /**
   * Which message the hook guards: that of a POST to the reply path or anything below it, or of a
   * send_message or send_broadcast command to one relay; of any other request it guards nothing.
   */
  lemma {:induction false} GuardedIff(r: Request, m: Text)
    ensures Guarded(r) == Some(m) <==>
      && r.verb == "POST" && r.message == Some(m)
      && ((exists rest :: r.url == "/api/agent/reply" + rest)
          || ((exists id :: id != "" && '/' !in id && r.url == "/api/relay/" + id + "/send-command")
              && (r.kind == Some("send_message") || r.kind == Some("send_broadcast"))))
  {
    SendCommandIff(r.url);
    if StartsWith(r.url, REPLY) {
      assert r.url == "/api/agent/reply" + r.url[|REPLY|..];
    }
    if IsSendCommand(r.url) {
      var id :| Splits(r.url, id);
      assert r.url == "/api/relay/" + id + "/send-command";
    }
    if exists id :: id != "" && '/' !in id && r.url == "/api/relay/" + id + "/send-command" {
      var id :| id != "" && '/' !in id && r.url == "/api/relay/" + id + "/send-command";
      assert Splits(r.url, id);
    }
  }
}
