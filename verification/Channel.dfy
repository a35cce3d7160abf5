/** The channel's wire format (assets/stdlib/channel.js): `parse` finds each field by a
    text search, and reads back what `serialize` wrote exactly when no string field holds
    a quote or a backslash. The payload is free. */
module Channel {
  import opened Options
  import opened Strings

  datatype Message = Message(joinRef: string, ref: string, topic: string, event: string, payload: string)

  // ---------------------------------------------------------------- the source's functions

  function JsonEscape(s: string): string {
    ReplaceAll(ReplaceAll(s, '\\', "\\\\"), '"', "\\\"")
  }

  function Serialize(m: Message): string {
    "{\"join_ref\":\"" + JsonEscape(m.joinRef) + "\",\"ref\":\"" + JsonEscape(m.ref) + "\",\"topic\":\"" + JsonEscape(m.topic)
    + "\",\"event\":\"" + JsonEscape(m.event) + "\",\"payload\":" + m.payload + "}"
  }

  function ExtractString(json: string, key: string): Option<string> {
    var search := key + ":\"";
    var idx :- IndexOf(json, search);
    IndexInside(json, search);
    var rest := json[idx + |search|..];
    var end :- IndexOf(rest, "\"");
    IndexInside(rest, "\"");
    Some(rest[..end])
  }

  function ExtractPayload(json: string, key: string): Option<string> {
    var search := key + ":";
    var idx :- IndexOf(json, search);
    IndexInside(json, search);
    var rest := json[idx + |search|..];
    if rest == "" then None
    else if rest[|rest| - 1] == '}' then Some(rest[..|rest| - 1])
    else Some(rest)
  }

  function Parse(json: string): Option<Message> {
    var j :- ExtractString(json, "\"join_ref\"");
    var r :- ExtractString(json, "\"ref\"");
    var t :- ExtractString(json, "\"topic\"");
    var e :- ExtractString(json, "\"event\"");
    var p :- ExtractPayload(json, "\"payload\"");
    Some(Message(j, r, t, e, p))
  }

  lemma {:induction false} IndexInside(s: string, pat: string)
    ensures IndexOf(s, pat).Some? ==>
              var i := IndexOf(s, pat).value;
              i + |pat| <= |s| && pat <= s[i..]
  {
    if !(pat <= s) && s != "" {
      IndexInside(s[1..], pat);
      if IndexOf(s, pat).Some? {
        var i := IndexOf(s[1..], pat).value;
        assert s[1..][i..] == s[i + 1..];
      }
    }
  }

  // ---------------------------------------------------------------- escaping and searching by themselves

  /** A JSON string read up to its closing quote, a backslash taking the character after it
      as it is: what was read, and what follows the quote. */
  function ReadString(t: string): Option<(string, string)> {
    if t == "" then None
    else if t[0] == '"' then Some(("", t[1..]))
    else if t[0] == '\\' && |t| == 1 then None
    else
      var k := if t[0] == '\\' then 1 else 0;
      var more :- ReadString(t[k + 1..]);
      Some(([t[k]] + more.0, more.1))
  }

  /** The quote and the backslash each get a backslash before them, and nothing else changes. */
  function EscapedChar(c: char): string {
    if c == '"' then ['\\', '"'] else if c == '\\' then ['\\', '\\'] else [c]
  }

  lemma EscapeFirst(c: char, rest: string)
    ensures JsonEscape([c] + rest) == EscapedChar(c) + JsonEscape(rest)
  {
    assert ([c] + rest)[1..] == rest;
    var x := if c == '\\' then "\\\\" else [c];
    assert ReplaceAll([c] + rest, '\\', "\\\\") == x + ReplaceAll(rest, '\\', "\\\\");
    ReplaceConcat(x, ReplaceAll(rest, '\\', "\\\\"), '"', "\\\"");
    if c == '"' {
      assert [c][1..] == "" && "\\\"" + "" == "\\\"";
    } else {
      ReplaceNone(x, '"', "\\\"");
    }
  }

  /** A JSON reader gets every field back, whatever it holds, and goes on where it ends. */
  lemma {:induction false} EscapeReads(s: string, rest: string)
    ensures ReadString(JsonEscape(s) + "\"" + rest) == Some((s, rest))
  {
    hide JsonEscape;
    if s == "" {
      EscapeNone();
      assert ("" + "\"" + rest)[1..] == rest;
    } else {
      EscapeFirst(s[0], s[1..]);
      assert [s[0]] + s[1..] == s;
      EscapeReads(s[1..], rest);
      var tail := JsonEscape(s[1..]) + "\"" + rest;
      var t := JsonEscape(s) + "\"" + rest;
      assert t == EscapedChar(s[0]) + tail;
      assert t[|EscapedChar(s[0])|..] == tail;
    }
  }

  lemma EscapeNone()
    ensures JsonEscape("") == ""
  {
  }

  /** A field is what stands between the first place where its key, a colon and a quote occur
      and the next quote; there is none if either is missing. */
  lemma ExtractIs(json: string, key: string)
    ensures var search := key + ":\"";
            match ExtractString(json, key)
            case Some(v) =>
              && '"' !in v
              && exists i: nat :: OccursAt(json, search + v + "\"", i) && forall j: nat :: j < i ==> !OccursAt(json, search, j)
            case None =>
              forall i: nat :: OccursAt(json, search, i) ==>
                (exists j: nat :: j < i && OccursAt(json, search, j)) || '"' !in json[i + |search|..]
  {
    var search := key + ":\"";
    IndexFirst(json, search);
    IndexInside(json, search);
    if IndexOf(json, search).Some? {
      var i := IndexOf(json, search).value;
      var rest := json[i + |search|..];
      IndexFirst(rest, "\"");
      IndexInside(rest, "\"");
      if IndexOf(rest, "\"").Some? { FieldAt(json, search, i, rest, IndexOf(rest, "\"").value); } else { NoQuote(rest); }
    }
  }

  lemma NoQuote(rest: string)
    requires forall j: nat :: !OccursAt(rest, "\"", j)
    ensures '"' !in rest
  {
    forall j | 0 <= j < |rest| ensures rest[j] != '"' { QuoteAt(rest, j); }
  }

  lemma QuoteAt(s: string, j: nat)
    requires j < |s|
    ensures OccursAt(s, "\"", j) <==> s[j] == '"'
  {
    assert s[j..j + 1] == [s[j]];
  }

  lemma FieldAt(json: string, search: string, i: nat, rest: string, e: nat)
    requires OccursAt(json, search, i) && rest == json[i + |search|..] && OccursAt(rest, "\"", e)
    requires forall j: nat :: j < e ==> !OccursAt(rest, "\"", j)
    ensures '"' !in rest[..e] && OccursAt(json, search + rest[..e] + "\"", i)
  {
    var v := rest[..e];
    forall j | 0 <= j < e ensures v[j] != '"' { QuoteAt(rest, j); }
    var w := search + v + "\"";
    assert w == json[i..i + |search|] + rest[..e] + rest[e..e + 1];
    assert rest[..e] + rest[e..e + 1] == rest[..e + 1] == json[i + |search|..i + |w|];
    assert json[i..i + |w|] == w;
  }

  // ---------------------------------------------------------------- searching past fields

  lemma ShorterKey(v: string, u: string, key: string, sfx: string)
    requires "\"" + key + "\"" + sfx <= "\"" + v + "\"" + u && |key| < |v|
    ensures '"' in v
  {
    assert v[|key|] == ("\"" + v + "\"" + u)[|key| + 1] == ("\"" + key + "\"" + sfx)[|key| + 1];
  }

  lemma ShorterPiece(v: string, u: string, key: string, sfx: string)
    requires "\"" + key + "\"" + sfx <= "\"" + v + "\"" + u && |v| < |key|
    ensures '"' in key
  {
    assert key[|v|] == ("\"" + key + "\"" + sfx)[|v| + 1] == ("\"" + v + "\"" + u)[|v| + 1];
  }

  lemma SamePiece(v: string, u: string, key: string, sfx: string)
    requires "\"" + key + "\"" + sfx <= "\"" + v + "\"" + u && |v| == |key|
    ensures v == key && sfx <= u
  {
    var pat, text := "\"" + key + "\"" + sfx, "\"" + v + "\"" + u;
    assert pat[1..|key| + 1] == key && text[1..|v| + 1] == v;
    assert pat[|key| + 2..] == sfx && text[|v| + 2..] == u;
    assert text[..|pat|] == pat;
    assert u[..|sfx|] == text[..|pat|][|key| + 2..];
    assert text[..|pat|][1..|key| + 1] == v;
  }

  /** A quoted piece matches only if it is the key and what must follow it does. */
  lemma NoMatch(v: string, u: string, key: string, sfx: string)
    requires '"' !in v && '"' !in key
    requires v != key || !(sfx <= u)
    ensures !("\"" + key + "\"" + sfx <= "\"" + v + "\"" + u)
  {
    if "\"" + key + "\"" + sfx <= "\"" + v + "\"" + u {
      if |key| < |v| {
        ShorterKey(v, u, key, sfx);
      } else if |v| < |key| {
        ShorterPiece(v, u, key, sfx);
      } else {
        SamePiece(v, u, key, sfx);
      }
    }
  }

  function Shifted(n: nat, i: Option<nat>): Option<nat> {
    match i
    case Some(k) => Some(n + k)
    case None => None
  }

  /** A search for a quoted key goes past a piece that is not it, up to the closing quote. */
  lemma SkipPiece(v: string, u: string, key: string, sfx: string)
    requires '"' !in v && '"' !in key
    requires v != key || !(sfx <= u)
    ensures var pat := "\"" + key + "\"" + sfx;
            IndexOf("\"" + v + "\"" + u, pat) == Shifted(1 + |v|, IndexOf("\"" + u, pat))
  {
    NoMatch(v, u, key, sfx);
    PieceTail(v, u);
    SkipHead("\"" + v + "\"" + u, v, "\"" + u, "\"" + key + "\"" + sfx);
  }

  lemma PieceTail(v: string, u: string)
    ensures ("\"" + v + "\"" + u)[1..] == v + ("\"" + u)
  {
  }

  lemma SkipHead(text: string, v: string, rest: string, pat: string)
    requires text != "" && text[1..] == v + rest && pat != "" && pat[0] !in v && !(pat <= text)
    ensures IndexOf(text, pat) == Shifted(1 + |v|, IndexOf(rest, pat))
  {
    IndexPast(v, rest, pat);
  }

  /** A field as it stands in the message, and what follows it. */
  function Field(k: string, v: string, t: string): string {
    "\"" + k + "\":\"" + v + "\"," + t
  }

  lemma FieldPieces(k: string, v: string, t: string)
    ensures Field(k, v, t) == "\"" + k + "\"" + (":\"" + v + "\"," + t)
    ensures "\"" + (":\"" + v + "\"," + t) == "\"" + ":" + "\"" + (v + "\"," + t)
    ensures "\"" + (v + "\"," + t) == "\"" + v + "\"" + ("," + t)
    ensures |Field(k, v, t)| == |k| + |v| + 6 + |t|
  {
  }

  lemma SkipField(k: string, v: string, t: string, key: string, sfx: string)
    requires '"' !in k && '"' !in v && '"' !in key && key != k && key != ":" && key != ","
    requires sfx != "" && sfx[0] == ':'
    ensures var pat := "\"" + key + "\"" + sfx;
            IndexOf(Field(k, v, "\"" + t), pat) == Shifted(|k| + |v| + 6, IndexOf("\"" + t, pat))
  {
    hide IndexOf, Field;
    var q := "\"" + t;
    FieldPieces(k, v, q);
    SkipPiece(k, ":\"" + v + "\"," + q, key, sfx);
    SkipPiece(":", v + "\"," + q, key, sfx);
    NotComma(sfx, q);
    SkipPiece(v, "," + q, key, sfx);
    CommaPiece(t);
    SkipPiece(",", t, key, sfx);
  }

  lemma NotComma(sfx: string, w: string)
    requires sfx != "" && sfx[0] == ':'
    ensures !(sfx <= "," + w)
  {
    assert ("," + w)[0] == ',';
  }

  lemma CommaPiece(t: string)
    ensures "\"" + ("," + ("\"" + t)) == "\"" + "," + "\"" + t
  {
  }

  // ---------------------------------------------------------------- finding each field

  function Fields(fs: seq<(string, string)>, t: string): string {
    if fs == [] then t else Field(fs[0].0, fs[0].1, Fields(fs[1..], t))
  }

  ghost predicate Skippable(fs: seq<(string, string)>, key: string) {
    forall i :: 0 <= i < |fs| ==> '"' !in fs[i].0 && '"' !in fs[i].1 && fs[i].0 != key
  }

  /** The search for a key finds its own field, whatever the fields before it hold. */
  lemma {:induction false} FindKey(fs: seq<(string, string)>, t: string, key: string, sfx: string)
    requires Skippable(fs, key) && '"' !in key && key != ":" && key != "," && sfx != "" && sfx[0] == ':'
    requires "\"" + key + "\"" + sfx <= t
    ensures var pat := "\"" + key + "\"" + sfx;
            |Fields(fs, t)| >= |t| && IndexOf(Fields(fs, t), pat) == Some(|Fields(fs, t)| - |t|)
    decreases |fs|
  {
    if fs != [] {
      var u := Fields(fs[1..], t);
      FindKey(fs[1..], t, key, sfx);
      StartsQuoted(fs[1..], t);
      FieldPieces(fs[0].0, fs[0].1, u);
      assert u == "\"" + u[1..];
      SkipField(fs[0].0, fs[0].1, u[1..], key, sfx);
    }
  }

  lemma StartsQuoted(fs: seq<(string, string)>, t: string)
    requires t != "" && t[0] == '"'
    ensures Fields(fs, t) != "" && Fields(fs, t)[0] == '"'
  {
  }

  lemma {:induction false} FieldsEnd(fs: seq<(string, string)>, t: string)
    ensures |Fields(fs, t)| >= |t| && Fields(fs, t)[|Fields(fs, t)| - |t|..] == t
    decreases |fs|
  {
    if fs != [] {
      var u := Fields(fs[1..], t);
      FieldsEnd(fs[1..], t);
      FieldPieces(fs[0].0, fs[0].1, u);
      FieldTail(fs[0].0, fs[0].1, u, |u| - |t|);
    }
  }

  lemma FieldTail(k: string, v: string, u: string, n: nat)
    requires n <= |u|
    ensures |Field(k, v, u)| == |k| + |v| + 6 + |u| && Field(k, v, u)[|k| + |v| + 6 + n..] == u[n..]
  {
  }

  /** The search in a whole message. */
  lemma FoundAt(fs: seq<(string, string)>, t: string, key: string, sfx: string, pat: string)
    requires Skippable(fs, key) && '"' !in key && key != ":" && key != "," && sfx != "" && sfx[0] == ':'
    requires pat == "\"" + key + "\"" + sfx && pat <= t
    ensures FoundIn("{" + Fields(fs, t), t, pat)
  {
    hide IndexOf, Fields;
    FindKey(fs, t, key, sfx);
    FieldsEnd(fs, t);
    BracedIndex(Fields(fs, t), pat);
    Braced("{" + Fields(fs, t), Fields(fs, t), t, pat);
  }

  ghost predicate FoundIn(text: string, t: string, pat: string) {
    && |pat| <= |t| <= |text| && IndexOf(text, pat) == Some(|text| - |t|)
    && text[|text| - |t| + |pat|..] == t[|pat|..]
  }

  lemma BracedIndex(body: string, pat: string)
    requires pat != "" && pat[0] == '"'
    ensures IndexOf("{" + body, pat) == Shifted(1, IndexOf(body, pat))
  {
    IndexPast("{", body, pat);
  }

  lemma Braced(text: string, body: string, t: string, pat: string)
    requires pat <= t && |t| <= |body| && text != "" && text[1..] == body
    requires IndexOf(text, pat) == Shifted(1, Some(|body| - |t|)) && body[|body| - |t|..] == t
    ensures FoundIn(text, t, pat)
  {
    DropMore(body, |body| - |t|, |pat|);
    DropMore(text, 1, |body| - |t| + |pat|);
  }

  lemma DropMore(s: string, i: nat, n: nat)
    requires i + n <= |s|
    ensures s[i + n..] == s[i..][n..]
  {
  }

  lemma FieldStart(key: string, v: string, u: string)
    ensures var pat := "\"" + key + "\"" + ":\"";
            pat <= Field(key, v, u) && Field(key, v, u)[|pat|..] == v + ("\"," + u)
  {
    var pat := "\"" + key + "\"" + ":\"";
    assert Field(key, v, u) == pat + (v + ("\"," + u));
  }

  /** The value runs to the first quote. */
  lemma ValueRead(v: string, u: string)
    requires '"' !in v
    ensures IndexOf(v + ("\"," + u), "\"") == Some(|v|) && (v + ("\"," + u))[..|v|] == v
  {
    IndexPast(v, "\"," + u, "\"");
    assert "\"" <= "\"," + u;
  }

  lemma ExtractStringAt(fs: seq<(string, string)>, key: string, v: string, u: string)
    requires Skippable(fs, key) && '"' !in key && key != ":" && key != "," && '"' !in v
    ensures ExtractString("{" + Fields(fs, Field(key, v, u)), "\"" + key + "\"") == Some(v)
  {
    FieldStart(key, v, u);
    FoundAt(fs, Field(key, v, u), key, ":\"", "\"" + key + "\"" + ":\"");
    StringRead("{" + Fields(fs, Field(key, v, u)), Field(key, v, u), "\"" + key + "\"" + ":\"", "\"" + key + "\"", v, u);
  }

  lemma StringRead(text: string, t: string, search: string, key: string, v: string, u: string)
    requires search == key + ":\"" && FoundIn(text, t, search) && t[|search|..] == v + ("\"," + u) && '"' !in v
    ensures ExtractString(text, key) == Some(v)
  {
    ValueRead(v, u);
  }

  function Tail(payload: string): string {
    "\"payload\":" + payload + "}"
  }

  lemma TailIs(payload: string)
    ensures "\"payload\":" <= Tail(payload) && Tail(payload)[|"\"payload\":"|..] == payload + "}"
    ensures "\"payload\":" == "\"" + "payload" + "\"" + ":" == "\"payload\"" + ":"
  {
    assert Tail(payload) == "\"payload\":" + (payload + "}");
  }

  lemma PayloadRead(text: string, t: string, search: string, key: string, payload: string)
    requires search == key + ":" && FoundIn(text, t, search) && t[|search|..] == payload + "}"
    ensures ExtractPayload(text, key) == Some(payload)
  {
    var rest := payload + "}";
    assert rest[..|rest| - 1] == payload;
  }

  lemma ExtractPayloadAt(fs: seq<(string, string)>, payload: string)
    requires Skippable(fs, "payload")
    ensures ExtractPayload("{" + Fields(fs, Tail(payload)), "\"payload\"") == Some(payload)
  {
    TailIs(payload);
    FoundAt(fs, Tail(payload), "payload", ":", "\"payload\":");
    PayloadRead("{" + Fields(fs, Tail(payload)), Tail(payload), "\"payload\":", "\"payload\"", payload);
  }

  // ---------------------------------------------------------------- the round trip

  /** The message with its four fields as they stand in the text. */
  function Text(j: string, r: string, t: string, e: string, payload: string): string {
    "{" + Field("join_ref", j, Field("ref", r, Field("topic", t, Field("event", e, Tail(payload)))))
  }

  ghost predicate QuoteFree(m: Message) {
    '"' !in m.joinRef && '"' !in m.ref && '"' !in m.topic && '"' !in m.event
  }

  ghost predicate BackslashFree(m: Message) {
    '\\' !in m.joinRef && '\\' !in m.ref && '\\' !in m.topic && '\\' !in m.event
  }

  lemma RegroupLast(left: string, q: string, k: string, p: string, z: string)
    ensures left + (q + k) + p + z == left + q + (k + p + z)
  {
  }

  lemma RegroupField(left: string, q: string, k: string, v: string, rest: string)
    ensures left + (q + k) + v + q + rest == left + q + (k + v + q + rest)
  {
  }

  lemma RegroupFirst(b: string, k: string, v: string, q: string, rest: string)
    ensures b + k + v + q + rest == b + (k + v + q + rest)
  {
  }

  /** The source's left-nested text, regrouped field by field. */
  lemma RegroupFields(b: string, q: string, k1: string, j: string, k2: string, r: string, k3: string, t: string,
                      k4: string, e: string, k5: string, p: string, z: string)
    ensures b + k1 + j + (q + k2) + r + (q + k3) + t + (q + k4) + e + (q + k5) + p + z
         == b + (k1 + j + q + (k2 + r + q + (k3 + t + q + (k4 + e + q + (k5 + p + z)))))
  {
    var a1 := b + k1 + j;
    var a2 := a1 + (q + k2) + r;
    var a3 := a2 + (q + k3) + t;
    var x4 := k5 + p + z;
    var x3 := k4 + e + q + x4;
    var x2 := k3 + t + q + x3;
    RegroupLast(a3 + (q + k4) + e, q, k5, p, z);
    RegroupField(a3, q, k4, e, x4);
    RegroupField(a2, q, k3, t, x3);
    RegroupField(a1, q, k2, r, x2);
    RegroupFirst(b, k1, j, q, k2 + r + q + x2);
  }

  /** `serialize` writes its fields one after another. */
  lemma SerializeIs(m: Message)
    ensures Serialize(m) == Text(JsonEscape(m.joinRef), JsonEscape(m.ref), JsonEscape(m.topic), JsonEscape(m.event), m.payload)
  {
    Literals();
    RegroupFields("{", "\",", "\"join_ref\":\"", JsonEscape(m.joinRef), "\"ref\":\"", JsonEscape(m.ref),
                  "\"topic\":\"", JsonEscape(m.topic), "\"event\":\"", JsonEscape(m.event), "\"payload\":", m.payload, "}");
  }

  lemma Literals()
    ensures "{\"join_ref\":\"" == "{" + "\"join_ref\":\""
    ensures "\",\"ref\":\"" == "\"," + "\"ref\":\"" && "\",\"topic\":\"" == "\"," + "\"topic\":\""
    ensures "\",\"event\":\"" == "\"," + "\"event\":\"" && "\",\"payload\":" == "\"," + "\"payload\":"
    ensures "\"join_ref\":\"" == "\"" + "join_ref" + "\":\"" && "\"ref\":\"" == "\"" + "ref" + "\":\""
    ensures "\"topic\":\"" == "\"" + "topic" + "\":\"" && "\"event\":\"" == "\"" + "event" + "\":\""
  {
  }

  lemma FieldsCons(k: string, v: string, fs: seq<(string, string)>, t: string)
    ensures Fields([(k, v)] + fs, t) == Field(k, v, Fields(fs, t))
  {
    assert ([(k, v)] + fs)[1..] == fs;
  }

  lemma FieldsUpTo(j: string, r: string, t: string, u1: string, u2: string, u3: string, u4: string)
    ensures Fields([], u1) == u1
    ensures Fields([("join_ref", j)], u2) == Field("join_ref", j, u2)
    ensures Fields([("join_ref", j), ("ref", r)], u3) == Field("join_ref", j, Field("ref", r, u3))
    ensures Fields([("join_ref", j), ("ref", r), ("topic", t)], u4)
         == Field("join_ref", j, Field("ref", r, Field("topic", t, u4)))
  {
    var f1, f2, f3 := ("join_ref", j), ("ref", r), ("topic", t);
    FieldsCons("join_ref", j, [], u2);
    assert [f1] + [] == [f1];
    FieldsCons("ref", r, [], u3);
    assert [f2] + [] == [f2];
    FieldsCons("join_ref", j, [f2], u3);
    assert [f1] + [f2] == [f1, f2];
    FieldsCons("topic", t, [], u4);
    assert [f3] + [] == [f3];
    FieldsCons("ref", r, [f3], u4);
    assert [f2] + [f3] == [f2, f3];
    FieldsCons("join_ref", j, [f2, f3], u4);
    assert [f1] + [f2, f3] == [f1, f2, f3];
  }

  lemma FieldsAll(j: string, r: string, t: string, e: string, u: string)
    ensures Fields([("join_ref", j), ("ref", r), ("topic", t), ("event", e)], u)
         == Field("join_ref", j, Field("ref", r, Field("topic", t, Field("event", e, u))))
  {
    var f1, f2, f3, f4 := ("join_ref", j), ("ref", r), ("topic", t), ("event", e);
    FieldsCons("event", e, [], u);
    assert [f4] + [] == [f4];
    FieldsCons("topic", t, [f4], u);
    assert [f3] + [f4] == [f3, f4];
    FieldsCons("ref", r, [f3, f4], u);
    assert [f2] + [f3, f4] == [f2, f3, f4];
    FieldsCons("join_ref", j, [f2, f3, f4], u);
    assert [f1] + [f2, f3, f4] == [f1, f2, f3, f4];
  }

  /** Each of the five searches finds its own field. */
  lemma ParseText(j: string, r: string, t: string, e: string, p: string)
    requires '"' !in j && '"' !in r && '"' !in t && '"' !in e
    ensures Parse(Text(j, r, t, e, p)) == Some(Message(j, r, t, e, p))
  {
    hide IndexOf, Field, Fields, ExtractString, ExtractPayload, Tail;
    var f1, f2, f3, f4 := ("join_ref", j), ("ref", r), ("topic", t), ("event", e);
    var u4 := Field("event", e, Tail(p));
    var u3 := Field("topic", t, u4);
    var u2 := Field("ref", r, u3);
    var u1 := Field("join_ref", j, u2);
    FieldsUpTo(j, r, t, u1, u2, u3, u4);
    FieldsAll(j, r, t, e, Tail(p));
    ExtractStringAt([], "join_ref", j, u2);
    ExtractStringAt([f1], "ref", r, u3);
    ExtractStringAt([f1, f2], "topic", t, u4);
    ExtractStringAt([f1, f2, f3], "event", e, Tail(p));
    ExtractPayloadAt([f1, f2, f3, f4], p);
    QuotedKeys();
  }

  lemma QuotedKeys()
    ensures "\"join_ref\"" == "\"" + "join_ref" + "\"" && "\"ref\"" == "\"" + "ref" + "\""
    ensures "\"topic\"" == "\"" + "topic" + "\"" && "\"event\"" == "\"" + "event" + "\""
  {
  }

  lemma {:induction false} DoubledIs(s: string)
    ensures var d := ReplaceAll(s, '\\', "\\\\");
            && |d| >= |s| && ('"' !in s ==> '"' !in d)
            && (d == s <==> '\\' !in s) && ('\\' in s ==> |d| > |s|)
  {
    if s != "" {
      DoubledIs(s[1..]);
      assert s == [s[0]] + s[1..];
    }
  }

  lemma EscapeIs(s: string)
    requires '"' !in s
    ensures '"' !in JsonEscape(s) && (JsonEscape(s) == s <==> '\\' !in s)
  {
    DoubledIs(s);
    ReplaceNone(ReplaceAll(s, '\\', "\\\\"), '"', "\\\"");
  }

  lemma {:induction false} BeforeQuote(s: string)
    ensures IndexOf(s, "\"").Some? ==> IndexOf(s, "\"").value <= |s| && '"' !in s[..IndexOf(s, "\"").value]
  {
    if !("\"" <= s) && s != "" {
      BeforeQuote(s[1..]);
      if IndexOf(s, "\"").Some? {
        var i := IndexOf(s[1..], "\"").value;
        assert s[..i + 1] == [s[0]] + s[1..][..i];
      }
    }
  }

  lemma ExtractedQuoteFree(json: string, key: string)
    ensures ExtractString(json, key).Some? ==> '"' !in ExtractString(json, key).value
  {
    var idx := IndexOf(json, key + ":\"");
    if idx.Some? {
      IndexInside(json, key + ":\"");
      BeforeQuote(json[idx.value + |key + ":\""|..]);
    }
  }

  /** `parse` reads back what `serialize` wrote, whatever the payload and even when a field
      spells a key, exactly when no string field holds a quote or a backslash. */
  lemma RoundTripIff(m: Message)
    ensures Parse(Serialize(m)) == Some(m) <==> QuoteFree(m) && BackslashFree(m)
  {
    var json := Serialize(m);
    if QuoteFree(m) {
      SerializeIs(m);
      EscapeIs(m.joinRef);
      EscapeIs(m.ref);
      EscapeIs(m.topic);
      EscapeIs(m.event);
      ParseText(JsonEscape(m.joinRef), JsonEscape(m.ref), JsonEscape(m.topic), JsonEscape(m.event), m.payload);
    } else {
      ExtractedQuoteFree(json, "\"join_ref\"");
      ExtractedQuoteFree(json, "\"ref\"");
      ExtractedQuoteFree(json, "\"topic\"");
      ExtractedQuoteFree(json, "\"event\"");
    }
  }
}
