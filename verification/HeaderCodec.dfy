/** The `X-HORD-RDMA-Write` header, request and response form, and the server policy. */
module HeaderCodec {
  import opened Basics
  import opened HeaderText

  /** The largest object a source can be registered for. */
  const USIZE_MAX := U64_MAX

  datatype RdmaWriteReq = RdmaWriteReq(addr: nat, rkey: nat, len: nat, id: Option<nat>) {
    predicate Valid() { addr <= U64_MAX && rkey <= U32_MAX && len <= U64_MAX && (id.Some? ==> id.value <= U32_MAX) }
  }

  datatype RdmaWriteStatus = Complete(bytesWritten: nat) | TooLarge(objectSize: nat) | Declined {
    predicate Valid() { (Complete? ==> bytesWritten <= U64_MAX) && (TooLarge? ==> objectSize <= U64_MAX) }
  }

  datatype RdmaWriteAction = Respond(status: RdmaWriteStatus)
                           | Write(payloadLen: nat, sourceLen: nat, transferId: Option<nat>)

  /** `RdmaWriteAction::decide`. */
  function Decide(req: RdmaWriteReq, objectSize: nat, split: bool): (r: RdmaWriteAction)
    ensures r == Respond(TooLarge(objectSize)) <==> objectSize > req.len || objectSize > USIZE_MAX
    ensures r.Write? <==> objectSize <= req.len && objectSize <= USIZE_MAX && (objectSize > 0 || (split && req.id.Some?))
    ensures r.Write? ==> r.payloadLen == objectSize && r.sourceLen == (if objectSize == 0 then 1 else objectSize)
    ensures r.Write? ==> r.transferId == (if split then req.id else None)
    ensures r.Respond? ==> r.status == TooLarge(objectSize) || (r.status == Complete(0) && objectSize == 0)
  {
    if objectSize > req.len || objectSize > USIZE_MAX then Respond(TooLarge(objectSize))
    else if split && req.id.Some? then Write(objectSize, Max(objectSize, 1), req.id)
    else if objectSize == 0 then Respond(Complete(0))
    else Write(objectSize, objectSize, None)
  }

  // ---- parts and pairs ------------------------------------------------------------------

  datatype Pair = Pair(key: string, value: string)

  /** One part between semicolons: nothing if blank, else a key and a value, both
      trimmed; a part without an equals sign is malformed. */
  function Token(part: string): Option<seq<Pair>> {
    var t := Trim(part);
    var i := Find(t, '=');
    if t == "" then Some([])
    else if i == |t| then None
    else Some([Pair(Trim(t[..i]), Trim(t[i + 1..]))])
  }

  function Tokens(parts: seq<string>): Option<seq<Pair>> {
    if parts == [] then Some([])
    else
      var front, last := Tokens(parts[..|parts| - 1]), Token(parts[|parts| - 1]);
      if front.Some? && last.Some? then Some(front.value + last.value) else None
  }

  function Both(a: Option<seq<Pair>>, b: Option<seq<Pair>>): Option<seq<Pair>> {
    if a.Some? && b.Some? then Some(a.value + b.value) else None
  }

  lemma {:induction false} TokensAppend(a: seq<string>, b: seq<string>)
    ensures Tokens(a + b) == Both(Tokens(a), Tokens(b))
  {
    hide Token;
    if b == [] {
      assert a + b == a;
      if Tokens(a).Some? { assert Tokens(a).value + [] == Tokens(a).value; }
    } else {
      var front, p := b[..|b| - 1], b[|b| - 1];
      assert (a + b)[..|a + b| - 1] == a + front && (a + b)[|a + b| - 1] == p;
      TokensAppend(a, front);
      if Tokens(a).Some? && Tokens(front).Some? && Token(p).Some? {
        assert Tokens(a).value + Tokens(front).value + Token(p).value == Tokens(a).value + (Tokens(front).value + Token(p).value);
      }
    }
  }

  lemma TokensOne(p: string)
    ensures Tokens([p]) == Token(p)
  {
    hide Token;
    assert [p][..0] == [];
    if Token(p).Some? { assert [] + Token(p).value == Token(p).value; }
  }

  lemma TokensMiddle(xs: seq<string>, p: string, ys: seq<string>)
    ensures Tokens(xs + [p] + ys) == Both(Both(Tokens(xs), Token(p)), Tokens(ys))
  {
    hide Token, Tokens;
    TokensAppend(xs + [p], ys);
    TokensAppend(xs, [p]);
    TokensOne(p);
  }

  predicate Bare(s: string) { s != "" && !IsBlank(s[0]) && !IsBlank(s[|s| - 1]) }

  /** A part written without blanks reads back as its key and value. */
  lemma TokenOf(key: string, value: string)
    requires Bare(key) && Bare(value) && '=' !in key
    ensures Token(key + "=" + value) == Some([Pair(key, value)])
  {
    hide Trim, Find, IsBlank;
    var t := key + "=" + value;
    TrimNone(t);
    TrimNone(key);
    TrimNone(value);
    FindAt(key, '=', value);
    assert t[..|key|] == key && t[|key| + 1..] == value;
  }

  /** A text with its parts joined again. */
  function Joined(parts: seq<string>): string {
    if parts == [] then "" else if |parts| == 1 then parts[0] else parts[0] + ";" + Joined(parts[1..])
  }

  lemma {:induction false} SplitJoined(parts: seq<string>)
    requires parts != [] && forall i :: 0 <= i < |parts| ==> ';' !in parts[i]
    ensures Split(Joined(parts), ';') == parts
  {
    hide Split;
    if |parts| == 1 {
      SplitOne(parts[0], ';');
    } else {
      SplitJoined(parts[1..]);
      SplitHead(parts[0], ';', Joined(parts[1..]));
      assert parts == [parts[0]] + parts[1..];
    }
  }

  // ---- the request ---------------------------------------------------------------------------

  datatype ReqFields = ReqFields(addr: Option<nat>, rkey: Option<nat>, len: Option<nat>, id: Option<nat>)

  predicate ReqKey(key: string) { key == "addr" || key == "rkey" || key == "len" || key == "id" }

  /** One pair of a request; a malformed number is an error, an unknown key is not. */
  function SetReq(f: ReqFields, p: Pair): Option<ReqFields> {
    if p.key == "addr" then
      var v := ParseHex(p.value, U64_MAX); if v.Some? then Some(f.(addr := v)) else None
    else if p.key == "rkey" then
      var v := ParseHex(p.value, U32_MAX); if v.Some? then Some(f.(rkey := v)) else None
    else if p.key == "len" then
      var v := ParseUint(p.value, 10, U64_MAX); if v.Some? then Some(f.(len := v)) else None
    else if p.key == "id" then
      var v := ParseUint(p.value, 10, U32_MAX); if v.Some? then Some(f.(id := v)) else None
    else Some(f)
  }

  function SetReqs(pairs: seq<Pair>): Option<ReqFields> {
    if pairs == [] then Some(ReqFields(None, None, None, None))
    else
      var f := SetReqs(pairs[..|pairs| - 1]);
      if f.Some? then SetReq(f.value, pairs[|pairs| - 1]) else None
  }

  function ReqOf(f: ReqFields): Option<RdmaWriteReq> {
    if f.addr.Some? && f.rkey.Some? && f.len.Some? then Some(RdmaWriteReq(f.addr.value, f.rkey.value, f.len.value, f.id))
    else None
  }

  function ReqOfTokens(ts: Option<seq<Pair>>): Option<RdmaWriteReq> {
    if ts.None? then None
    else
      var f := SetReqs(ts.value);
      if f.Some? then ReqOf(f.value) else None
  }

  function ParseReq(value: string): Option<RdmaWriteReq> { ReqOfTokens(Tokens(Split(value, ';'))) }

  lemma SetReqsSnoc(pairs: seq<Pair>, p: Pair)
    ensures SetReqs(pairs + [p]) == var f := SetReqs(pairs); if f.Some? then SetReq(f.value, p) else None
    ensures SetReqs(pairs + []) == SetReqs(pairs)
  {
    assert (pairs + [p])[..|pairs|] == pairs && pairs + [] == pairs;
  }

  lemma {:induction false} SetReqsFails(a: seq<Pair>, b: seq<Pair>)
    ensures SetReqs(a).None? ==> SetReqs(a + b).None?
  {
    hide SetReq;
    if b == [] {
      assert a + b == a;
    } else {
      assert (a + b)[..|a + b| - 1] == a + b[..|b| - 1];
      SetReqsFails(a, b[..|b| - 1]);
    }
  }

  /** A malformed part, or a malformed number, anywhere makes the whole header fail. */
  lemma FailsEarly(done: seq<string>, rest: seq<string>)
    ensures Tokens(done).None? || SetReqs(Tokens(done).value).None? ==> ReqOfTokens(Tokens(done + rest)).None?
  {
    hide Tokens, SetReqs;
    TokensAppend(done, rest);
    if Tokens(done).Some? && Tokens(rest).Some? {
      SetReqsFails(Tokens(done).value, Tokens(rest).value);
    }
  }

  predicate HasKey(pairs: seq<Pair>, key: string) { exists i :: 0 <= i < |pairs| && pairs[i].key == key }

  /** The value of the last pair with this key. */
  function LastOf(pairs: seq<Pair>, key: string): (v: Option<string>)
    ensures v.Some? <==> HasKey(pairs, key)
    ensures v.Some? ==>
      exists i :: 0 <= i < |pairs| && pairs[i] == Pair(key, v.value) && forall j :: i < j < |pairs| ==> pairs[j].key != key
  {
    if pairs == [] then None
    else
      var n := |pairs| - 1;
      assert forall i :: 0 <= i < n ==> pairs[..n][i] == pairs[i];
      if pairs[n].key == key then
        assert pairs[n] == Pair(key, pairs[n].value);
        Some(pairs[n].value)
      else LastOf(pairs[..n], key)
  }

  function HexOf(v: Option<string>, max: nat): Option<nat> { if v.Some? then ParseHex(v.value, max) else None }

  function DecimalOf(v: Option<string>, max: nat): Option<nat> { if v.Some? then ParseUint(v.value, 10, max) else None }

  /** A number of a known key is well formed. */
  predicate NumberOk(p: Pair) {
    && (p.key == "addr" ==> ParseHex(p.value, U64_MAX).Some?) && (p.key == "rkey" ==> ParseHex(p.value, U32_MAX).Some?)
    && (p.key == "len" ==> ParseUint(p.value, 10, U64_MAX).Some?) && (p.key == "id" ==> ParseUint(p.value, 10, U32_MAX).Some?)
  }

  predicate NumbersOk(pairs: seq<Pair>) { forall i :: 0 <= i < |pairs| ==> NumberOk(pairs[i]) }

  lemma {:induction false} SetReqsIs(pairs: seq<Pair>)
    ensures SetReqs(pairs).Some? <==> NumbersOk(pairs)
    ensures NumbersOk(pairs) ==>
      SetReqs(pairs).value == ReqFields(HexOf(LastOf(pairs, "addr"), U64_MAX), HexOf(LastOf(pairs, "rkey"), U32_MAX),
                DecimalOf(LastOf(pairs, "len"), U64_MAX), DecimalOf(LastOf(pairs, "id"), U32_MAX))
  {
    hide ParseHex, ParseUint, HasKey;
    if pairs != [] {
      var n := |pairs| - 1;
      SetReqsIs(pairs[..n]);
      assert NumbersOk(pairs) <==> NumbersOk(pairs[..n]) && NumberOk(pairs[n]);
    }
  }

  lemma GoodNumber(pairs: seq<Pair>, key: string)
    requires NumbersOk(pairs)
    ensures HasKey(pairs, key) ==> LastOf(pairs, key).Some? && NumberOk(Pair(key, LastOf(pairs, key).value))
    ensures LastOf(pairs, key).Some? ==> HasKey(pairs, key)
  {
    hide LastOf, NumberOk;
  }

  /** What a request header means: every part is blank or has an equals sign, every number
      of a known key is well formed, `addr`, `rkey` and `len` are there, and of repeated
      keys the last one counts. Exactly such a header parses. */
  lemma RequestMeans(value: string)
    ensures var ts, r := Tokens(Split(value, ';')), ParseReq(value);
      && (r.Some? <==>
            && ts.Some? && NumbersOk(ts.value)
            && HasKey(ts.value, "addr") && HasKey(ts.value, "rkey") && HasKey(ts.value, "len"))
      && (r.Some? ==>
            && Some(r.value.addr) == HexOf(LastOf(ts.value, "addr"), U64_MAX)
            && Some(r.value.rkey) == HexOf(LastOf(ts.value, "rkey"), U32_MAX)
            && Some(r.value.len) == DecimalOf(LastOf(ts.value, "len"), U64_MAX)
            && r.value.id == DecimalOf(LastOf(ts.value, "id"), U32_MAX))
  {
    hide ParseHex, ParseUint, Tokens, Split, SetReqs, LastOf, NumbersOk, HasKey;
    var ts := Tokens(Split(value, ';'));
    if ts.Some? {
      SetReqsIs(ts.value);
      if NumbersOk(ts.value) {
        GoodNumber(ts.value, "addr");
        GoodNumber(ts.value, "rkey");
        GoodNumber(ts.value, "len");
      }
    }
  }

  /** `RdmaWriteReq::parse`. */
  method ParseRequest(value: string) returns (r: Option<RdmaWriteReq>)
    ensures r == ParseReq(value)
  {
    hide Tokens, Token, SetReqs, SetReq, Split, Trim;
    var parts := Split(value, ';');
    var f := ReqFields(None, None, None, None);
    ghost var pairs: seq<Pair> := [];
    NoTokens();
    for i := 0 to |parts|
      invariant Tokens(parts[..i]) == Some(pairs) && SetReqs(pairs) == Some(f)
    {
      assert parts[..i] + [parts[i]] == parts[..i + 1] && parts[..i + 1] + parts[i + 1..] == parts;
      TokensAppend(parts[..i], [parts[i]]);
      TokensOne(parts[i]);
      FailsEarly(parts[..i + 1], parts[i + 1..]);
      TokenIs(parts[i]);
      var part := Trim(parts[i]);
      if part == "" {
        SetReqsSnoc(pairs, Pair("", ""));
        pairs := pairs + [];
        continue;
      }
      var at := Find(part, '=');
      if at == |part| {
        return None;
      }
      var pair := Pair(Trim(part[..at]), Trim(part[at + 1..]));
      SetReqsSnoc(pairs, pair);
      pairs := pairs + [pair];
      var next := SetReq(f, pair);
      if next.None? {
        return None;
      }
      f := next.value;
    }
    assert parts[..|parts|] == parts;
    r := ReqOf(f);
  }

  lemma NoTokens()
    ensures Tokens([]) == Some([]) && SetReqs([]) == Some(ReqFields(None, None, None, None))
    ensures SetStatuses([]) == StatusFields(None, None, None)
  {
  }

  lemma TokenIs(p: string)
    ensures var t := Trim(p);
      var i := Find(t, '=');
      Token(p) == if t == "" then Some([]) else if i == |t| then None else Some([Pair(Trim(t[..i]), Trim(t[i + 1..]))])
  {
  }

  /** `header_value`. */
  function PrintReq(r: RdmaWriteReq): string {
    "addr=0x" + Digits(r.addr, 16) + ";rkey=0x" + Digits(r.rkey, 16) + ";len=" + Digits(r.len, 10)
    + if r.id.Some? then ";id=" + Digits(r.id.value, 10) else ""
  }

  /** A printed number, with or without the hexadecimal prefix, is a bare value and holds
      no separator. */
  lemma NumberText(n: nat, radix: nat, prefix: string)
    requires (radix == 10 && prefix == "") || (radix == 16 && prefix == "0x")
    ensures Bare(prefix + Digits(n, radix)) && ';' !in prefix + Digits(n, radix)
  {
    hide Digits, Value;
    DigitsRoundTrip(n, radix);
    var s := Digits(n, radix);
    assert s[0] in s && s[|s| - 1] in s;
    assert !IsBlank('0');
  }

  lemma ReqPart(key: string, text: string)
    requires ReqKey(key) && Bare(text) && ';' !in text
    ensures Token(key + "=" + text) == Some([Pair(key, text)]) && ';' !in key + "=" + text
  {
    hide Token;
    assert Bare(key) && '=' !in key && ';' !in key;
    TokenOf(key, text);
  }

  /** The parts a request prints. */
  function ReqParts(r: RdmaWriteReq): seq<string> {
    ["addr" + "=" + ("0x" + Digits(r.addr, 16)), "rkey" + "=" + ("0x" + Digits(r.rkey, 16)), "len" + "=" + ("" + Digits(r.len, 10))]
    + if r.id.Some? then ["id" + "=" + ("" + Digits(r.id.value, 10))] else []
  }

  function ReqPairs(r: RdmaWriteReq): seq<Pair> {
    [Pair("addr", "0x" + Digits(r.addr, 16)), Pair("rkey", "0x" + Digits(r.rkey, 16)), Pair("len", "" + Digits(r.len, 10))]
    + if r.id.Some? then [Pair("id", "" + Digits(r.id.value, 10))] else []
  }

  lemma JoinedCons(p: string, rest: seq<string>)
    requires rest != []
    ensures Joined([p] + rest) == p + ";" + Joined(rest) && Joined([p]) == p
  {
    assert ([p] + rest)[1..] == rest;
  }

  lemma ReqLiterals(d: string)
    ensures "addr" + "=" + ("0x" + d) == "addr=0x" + d && "rkey" + "=" + ("0x" + d) == "rkey=0x" + d
    ensures "len" + "=" + ("" + d) == "len=" + d && "id" + "=" + ("" + d) == "id=" + d
  {
  }

  lemma ReqLine(x: string, y: string, z: string, u: string)
    ensures "addr=0x" + x + ";rkey=0x" + y + ";len=" + z + "" ==
            ("addr=0x" + x) + ";" + (("rkey=0x" + y) + ";" + ("len=" + z))
    ensures "addr=0x" + x + ";rkey=0x" + y + ";len=" + z + (";id=" + u) ==
            ("addr=0x" + x) + ";" + (("rkey=0x" + y) + ";" + (("len=" + z) + ";" + ("id=" + u)))
  {
    assert ";rkey=0x" == ";" + "rkey=0x" && ";len=" == ";" + "len=" && ";id=" == ";" + "id=";
    Regroup(x, y, z, u);
  }

  lemma Regroup(x: string, y: string, z: string, u: string)
    ensures "addr=0x" + x + (";" + "rkey=0x") + y + (";" + "len=") + z ==
            ("addr=0x" + x) + ";" + (("rkey=0x" + y) + ";" + ("len=" + z))
  {
  }

  lemma PrintedReq(r: RdmaWriteReq)
    ensures PrintReq(r) == Joined(ReqParts(r))
  {
    hide Digits, Joined;
    var p := ReqParts(r);
    ReqLiterals(Digits(r.addr, 16));
    ReqLiterals(Digits(r.rkey, 16));
    ReqLiterals(Digits(r.len, 10));
    ReqLine(Digits(r.addr, 16), Digits(r.rkey, 16), Digits(r.len, 10), if r.id.Some? then Digits(r.id.value, 10) else "");
    if r.id.Some? {
      ReqLiterals(Digits(r.id.value, 10));
      JoinedCons(p[0], [p[1], p[2], p[3]]);
      JoinedCons(p[1], [p[2], p[3]]);
      JoinedCons(p[2], [p[3]]);
      JoinedCons(p[3], [p[3]]);
      assert [p[0]] + [p[1], p[2], p[3]] == p && [p[1]] + [p[2], p[3]] == [p[1], p[2], p[3]] && [p[2]] + [p[3]] == [p[2], p[3]];
    } else {
      JoinedCons(p[0], [p[1], p[2]]);
      JoinedCons(p[1], [p[2]]);
      JoinedCons(p[2], [p[2]]);
      assert [p[0]] + [p[1], p[2]] == p && [p[1]] + [p[2]] == [p[1], p[2]];
    }
  }

  lemma ReqTokens(r: RdmaWriteReq)
    ensures Tokens(ReqParts(r)) == Some(ReqPairs(r))
    ensures forall i :: 0 <= i < |ReqParts(r)| ==> ';' !in ReqParts(r)[i]
  {
    hide Digits, Token, Tokens, Bare;
    var p := ReqParts(r);
    NumberText(r.addr, 16, "0x");
    NumberText(r.rkey, 16, "0x");
    NumberText(r.len, 10, "");
    ReqPart("addr", "0x" + Digits(r.addr, 16));
    ReqPart("rkey", "0x" + Digits(r.rkey, 16));
    ReqPart("len", "" + Digits(r.len, 10));
    TokensOne(p[0]);
    TokensAppend([p[0]], [p[1]]);
    TokensOne(p[1]);
    TokensAppend([p[0], p[1]], [p[2]]);
    TokensOne(p[2]);
    assert [p[0]] + [p[1]] == [p[0], p[1]] && [p[0], p[1]] + [p[2]] == [p[0], p[1], p[2]];
    if r.id.Some? {
      NumberText(r.id.value, 10, "");
      ReqPart("id", "" + Digits(r.id.value, 10));
      TokensOne(p[3]);
      TokensAppend([p[0], p[1], p[2]], [p[3]]);
      assert [p[0], p[1], p[2]] + [p[3]] == p;
      assert ReqPairs(r) == [ReqPairs(r)[0]] + [ReqPairs(r)[1]] + [ReqPairs(r)[2]] + [ReqPairs(r)[3]];
    } else {
      assert [p[0], p[1], p[2]] == p;
      assert ReqPairs(r) == [ReqPairs(r)[0]] + [ReqPairs(r)[1]] + [ReqPairs(r)[2]];
    }
  }

  lemma ReqFieldsBack(r: RdmaWriteReq)
    requires r.Valid()
    ensures SetReqs(ReqPairs(r)) == Some(ReqFields(Some(r.addr), Some(r.rkey), Some(r.len), r.id))
  {
    hide Digits, ParseHex, ParseUint, SetReqs;
    var a, k, l := ReqPairs(r)[0], ReqPairs(r)[1], ReqPairs(r)[2];
    HexRoundTrip(r.addr, U64_MAX);
    HexRoundTrip(r.rkey, U32_MAX);
    DecimalRoundTrip(r.len, U64_MAX);
    assert "" + Digits(r.len, 10) == Digits(r.len, 10);
    NoTokens();
    SetReqsSnoc([], a);
    SetReqsSnoc([a], k);
    SetReqsSnoc([a, k], l);
    assert [] + [a] == [a] && [a] + [k] == [a, k] && [a, k] + [l] == [a, k, l];
    if r.id.Some? {
      DecimalRoundTrip(r.id.value, U32_MAX);
      assert "" + Digits(r.id.value, 10) == Digits(r.id.value, 10);
      SetReqsSnoc([a, k, l], ReqPairs(r)[3]);
      assert [a, k, l] + [ReqPairs(r)[3]] == ReqPairs(r);
    } else {
      assert [a, k, l] == ReqPairs(r);
    }
  }

  /** Round trip: every request reads back from what it prints. */
  lemma ReqRoundTrip(r: RdmaWriteReq)
    requires r.Valid()
    ensures ParseReq(PrintReq(r)) == Some(r)
  {
    hide PrintReq, Tokens, SetReqs, ReqParts, ReqPairs, Split;
    PrintedReq(r);
    ReqTokens(r);
    ReqFieldsBack(r);
    ReqPartsSome(r);
    SplitJoined(ReqParts(r));
  }

  lemma ReqPartsSome(r: RdmaWriteReq)
    ensures ReqParts(r) != []
  {
  }

  // ---- the response ---------------------------------------------------------------------------

  datatype StatusFields = StatusFields(status: Option<string>, bytesWritten: Option<nat>, objectSize: Option<nat>)

  predicate StatusKey(key: string) { key == "status" || key == "bytes_written" || key == "object_size" }

  /** One pair of a response; a malformed number just leaves its field empty. */
  function SetStatus(f: StatusFields, p: Pair): StatusFields {
    if p.key == "status" then f.(status := Some(p.value))
    else if p.key == "bytes_written" then f.(bytesWritten := ParseUint(p.value, 10, U64_MAX))
    else if p.key == "object_size" then f.(objectSize := ParseUint(p.value, 10, U64_MAX))
    else f
  }

  function SetStatuses(pairs: seq<Pair>): StatusFields {
    if pairs == [] then StatusFields(None, None, None)
    else SetStatus(SetStatuses(pairs[..|pairs| - 1]), pairs[|pairs| - 1])
  }

  function StatusOf(f: StatusFields): Option<RdmaWriteStatus> {
    if f.status == Some("complete") then (if f.bytesWritten.Some? then Some(Complete(f.bytesWritten.value)) else None)
    else if f.status == Some("too_large") then (if f.objectSize.Some? then Some(TooLarge(f.objectSize.value)) else None)
    else if f.status == Some("declined") then Some(Declined)
    else None
  }

  function StatusOfTokens(ts: Option<seq<Pair>>): Option<RdmaWriteStatus> {
    if ts.None? then None else StatusOf(SetStatuses(ts.value))
  }

  function ParseStatus(value: string): Option<RdmaWriteStatus> { StatusOfTokens(Tokens(Split(value, ';'))) }

  lemma SetStatusesSnoc(pairs: seq<Pair>, p: Pair)
    ensures SetStatuses(pairs + [p]) == SetStatus(SetStatuses(pairs), p)
    ensures SetStatuses(pairs + []) == SetStatuses(pairs)
  {
    assert (pairs + [p])[..|pairs|] == pairs && pairs + [] == pairs;
  }

  lemma {:induction false} SetStatusesIs(pairs: seq<Pair>)
    ensures SetStatuses(pairs) == StatusFields(LastOf(pairs, "status"),
      DecimalOf(LastOf(pairs, "bytes_written"), U64_MAX), DecimalOf(LastOf(pairs, "object_size"), U64_MAX))
  {
    hide ParseUint, HasKey;
    if pairs != [] {
      SetStatusesIs(pairs[..|pairs| - 1]);
    }
  }

  /** What a response header means: the last `status` decides, and its number is the last
      one given under its name. */
  lemma StatusMeans(value: string, n: nat)
    ensures var ts, r := Tokens(Split(value, ';')), ParseStatus(value);
      && (r == Some(Complete(n)) <==>
            ts.Some? && LastOf(ts.value, "status") == Some("complete") && DecimalOf(LastOf(ts.value, "bytes_written"), U64_MAX) == Some(n))
      && (r == Some(TooLarge(n)) <==>
            ts.Some? && LastOf(ts.value, "status") == Some("too_large") && DecimalOf(LastOf(ts.value, "object_size"), U64_MAX) == Some(n))
      && (r == Some(Declined) <==> ts.Some? && LastOf(ts.value, "status") == Some("declined"))
  {
    hide ParseUint, Tokens, Split, SetStatuses, LastOf;
    var ts := Tokens(Split(value, ';'));
    if ts.Some? {
      SetStatusesIs(ts.value);
    }
  }

  /** `RdmaWriteStatus::parse`. */
  method ParseResponse(value: string) returns (r: Option<RdmaWriteStatus>)
    ensures r == ParseStatus(value)
  {
    hide Tokens, Token, SetStatuses, SetStatus, Split, Trim;
    var parts := Split(value, ';');
    var f := StatusFields(None, None, None);
    ghost var pairs: seq<Pair> := [];
    NoTokens();
    for i := 0 to |parts|
      invariant Tokens(parts[..i]) == Some(pairs) && SetStatuses(pairs) == f
    {
      assert parts[..i] + [parts[i]] == parts[..i + 1] && parts[..i + 1] + parts[i + 1..] == parts;
      TokensAppend(parts[..i], [parts[i]]);
      TokensOne(parts[i]);
      TokensAppend(parts[..i + 1], parts[i + 1..]);
      TokenIs(parts[i]);
      var part := Trim(parts[i]);
      if part == "" {
        SetStatusesSnoc(pairs, Pair("", ""));
        pairs := pairs + [];
        continue;
      }
      var at := Find(part, '=');
      if at == |part| {
        return None;
      }
      var pair := Pair(Trim(part[..at]), Trim(part[at + 1..]));
      SetStatusesSnoc(pairs, pair);
      pairs := pairs + [pair];
      f := SetStatus(f, pair);
    }
    assert parts[..|parts|] == parts;
    r := StatusOf(f);
  }

  function StatusWord(s: RdmaWriteStatus): string {
    match s
    case Complete(_) => "complete"
    case TooLarge(_) => "too_large"
    case Declined => "declined"
  }

  /** The number a status carries and the name it goes by. */
  function StatusNumber(s: RdmaWriteStatus): Option<(string, nat)> {
    match s
    case Complete(n) => Some(("bytes_written", n))
    case TooLarge(n) => Some(("object_size", n))
    case Declined => None
  }

  function PrintStatus(s: RdmaWriteStatus): string {
    match s
    case Complete(n) => "status=complete;bytes_written=" + Digits(n, 10)
    case TooLarge(n) => "status=too_large;object_size=" + Digits(n, 10)
    case Declined => "status=declined"
  }

  lemma StatusPart(key: string, text: string)
    requires StatusKey(key) && Bare(text) && ';' !in text
    ensures Token(key + "=" + text) == Some([Pair(key, text)]) && ';' !in key + "=" + text
  {
    hide Token;
    assert Bare(key) && '=' !in key && ';' !in key;
    TokenOf(key, text);
  }

  lemma PrintedStatus(s: RdmaWriteStatus)
    ensures var first := "status" + "=" + StatusWord(s);
      PrintStatus(s) == if s.Declined? then first else first + ";" + (StatusNumber(s).value.0 + "=" + Digits(StatusNumber(s).value.1, 10))
    ensures Bare(StatusWord(s)) && ';' !in StatusWord(s)
  {
    hide Digits, Bare;
    StatusLiterals();
    WordsAreBare(s);
    match s {
      case Complete(n) => StatusLine("complete", "bytes_written", Digits(n, 10));
      case TooLarge(n) => StatusLine("too_large", "object_size", Digits(n, 10));
      case Declined =>
    }
  }

  lemma StatusLine(word: string, key: string, d: string)
    ensures "status" + "=" + word + ";" + (key + "=" + d) == "status=" + word + ";" + key + "=" + d
  {
    assert "status" + "=" == "status=";
  }

  lemma StatusLiterals()
    ensures "status=" + "complete" + ";" + "bytes_written" + "=" == "status=complete;bytes_written="
    ensures "status=" + "too_large" + ";" + "object_size" + "=" == "status=too_large;object_size="
  {
  }

  lemma WordsAreBare(s: RdmaWriteStatus)
    ensures Bare(StatusWord(s)) && ';' !in StatusWord(s)
  {
  }

  /** Round trip: every status reads back from what it prints. */
  lemma StatusRoundTrip(s: RdmaWriteStatus)
    requires s.Valid()
    ensures ParseStatus(PrintStatus(s)) == Some(s)
  {
    hide PrintStatus, Digits, Token, Tokens, Split, Bare, ParseUint, SetStatuses;
    var word := StatusWord(s);
    var first := "status" + "=" + word;
    PrintedStatus(s);
    StatusPart("status", word);
    TokensOne(first);
    SplitOne(first, ';');
    NoTokens();
    var a := Pair("status", word);
    SetStatusesSnoc([], a);
    assert [] + [a] == [a];
    if !s.Declined? {
      var (key, n) := StatusNumber(s).value;
      var text := Digits(n, 10);
      var second := key + "=" + text;
      NumberText(n, 10, "");
      assert "" + text == text;
      StatusPart(key, text);
      TokensOne(second);
      SplitOne(second, ';');
      SplitHead(first, ';', second);
      TokensAppend([first], [second]);
      SetStatusesSnoc([a], Pair(key, text));
      DecimalRoundTrip(n, U64_MAX);
    }
  }

  // ---- what does not matter -----------------------------------------------------------------------

  /** A part a parser skips: blank, or a pair whose key it does not know. */
  predicate Skipped(known: string -> bool, part: string) {
    var t := Token(part);
    t.Some? && forall p <- t.value :: !known(p.key)
  }

  lemma BlankSkipped(known: string -> bool, w: string)
    requires Blank(w)
    ensures Skipped(known, w)
  {
    TrimBlanks(w, "", "");
    assert w + "" + "" == w;
  }

  /** Any `key=value`, in any spacing, is the trimmed pair. */
  lemma TokenOfAny(key: string, value: string)
    requires '=' !in key
    ensures Token(key + "=" + value) == Some([Pair(Trim(key), Trim(value))])
  {
    hide TrimStart, TrimEnd, Find;
    var k, v := TrimStart(key), TrimEnd(value);
    var t := k + "=" + v;
    TrimStartIn(key, '=', value);
    TrimEndIn(k, '=', value);
    assert Trim(key + "=" + value) == t;
    TrimHalf(key);
    TrimHalf(value);
    var w := StartTrimmed(key);
    assert '=' !in k;
    FindAt(k, '=', v);
    assert t[..|k|] == k && t[|k| + 1..] == v;
  }

  /** A parameter with an unknown key, in any spacing. */
  lemma UnknownSkipped(known: string -> bool, key: string, value: string)
    requires '=' !in key && !known(Trim(key))
    ensures Skipped(known, key + "=" + value)
  {
    hide Token, Trim;
    TokenOfAny(key, value);
  }

  function OnlyKnown(known: string -> bool, pairs: seq<Pair>): seq<Pair> {
    if pairs == [] then []
    else OnlyKnown(known, pairs[..|pairs| - 1]) + (if known(pairs[|pairs| - 1].key) then [pairs[|pairs| - 1]] else [])
  }

  lemma {:induction false} OnlyKnownAppend(known: string -> bool, a: seq<Pair>, b: seq<Pair>)
    ensures OnlyKnown(known, a + b) == OnlyKnown(known, a) + OnlyKnown(known, b)
  {
    if b == [] {
      assert a + b == a;
    } else {
      assert (a + b)[..|a + b| - 1] == a + b[..|b| - 1];
      OnlyKnownAppend(known, a, b[..|b| - 1]);
    }
  }

  lemma {:induction false} NoneKnown(known: string -> bool, pairs: seq<Pair>)
    requires forall p <- pairs :: !known(p.key)
    ensures OnlyKnown(known, pairs) == []
  {
    if pairs != [] {
      NoneKnown(known, pairs[..|pairs| - 1]);
      assert pairs[|pairs| - 1] in pairs;
    }
  }

  lemma {:induction false} ReqOnlyKnown(pairs: seq<Pair>)
    ensures SetReqs(pairs) == SetReqs(OnlyKnown(ReqKey, pairs))
  {
    hide ParseHex, ParseUint;
    if pairs != [] {
      var front, p := pairs[..|pairs| - 1], pairs[|pairs| - 1];
      ReqOnlyKnown(front);
      SetReqsSnoc(OnlyKnown(ReqKey, front), p);
    }
  }

  lemma {:induction false} StatusOnlyKnown(pairs: seq<Pair>)
    ensures SetStatuses(pairs) == SetStatuses(OnlyKnown(StatusKey, pairs))
  {
    hide ParseUint;
    if pairs != [] {
      var front, p := pairs[..|pairs| - 1], pairs[|pairs| - 1];
      StatusOnlyKnown(front);
      SetStatusesSnoc(OnlyKnown(StatusKey, front), p);
    }
  }

  /** With and without a skipped part, the known pairs are the same. */
  lemma SkipsPart(known: string -> bool, xs: seq<string>, junk: string, ys: seq<string>)
    requires Skipped(known, junk)
    ensures var t, u := Tokens(xs + [junk] + ys), Tokens(xs + ys);
      t.Some? == u.Some? && (t.Some? ==> OnlyKnown(known, t.value) == OnlyKnown(known, u.value))
  {
    hide Token, Tokens, OnlyKnown;
    TokensMiddle(xs, junk, ys);
    TokensAppend(xs, ys);
    if Tokens(xs).Some? && Tokens(ys).Some? {
      var a, j, b := Tokens(xs).value, Token(junk).value, Tokens(ys).value;
      OnlyKnownAppend(known, a + j, b);
      OnlyKnownAppend(known, a, j);
      OnlyKnownAppend(known, a, b);
      NoneKnown(known, j);
      assert OnlyKnown(known, a) + [] == OnlyKnown(known, a);
    }
  }

  /** The known pairs decide what a list of parts parses to. */
  lemma SamePairs(t: Option<seq<Pair>>, u: Option<seq<Pair>>)
    requires t.Some? == u.Some?
    ensures (t.Some? ==> OnlyKnown(ReqKey, t.value) == OnlyKnown(ReqKey, u.value)) ==> ReqOfTokens(t) == ReqOfTokens(u)
    ensures (t.Some? ==> OnlyKnown(StatusKey, t.value) == OnlyKnown(StatusKey, u.value)) ==> StatusOfTokens(t) == StatusOfTokens(u)
  {
    hide SetReqs, SetStatuses, OnlyKnown;
    if t.Some? {
      ReqOnlyKnown(t.value);
      ReqOnlyKnown(u.value);
      StatusOnlyKnown(t.value);
      StatusOnlyKnown(u.value);
    }
  }

  /** Two header values with the same parts but for one that is skipped. */
  lemma SkipsIn(with: string, without: string, xs: seq<string>, junk: string, ys: seq<string>)
    requires Split(with, ';') == xs + [junk] + ys && Split(without, ';') == xs + ys
    ensures Skipped(ReqKey, junk) ==> ParseReq(with) == ParseReq(without)
    ensures Skipped(StatusKey, junk) ==> ParseStatus(with) == ParseStatus(without)
  {
    hide Tokens, Split, Skipped, SetReqs, SetStatuses, OnlyKnown, ReqOfTokens, StatusOfTokens;
    if Skipped(ReqKey, junk) {
      SkipsPart(ReqKey, xs, junk, ys);
      SamePairs(Tokens(xs + [junk] + ys), Tokens(xs + ys));
    }
    if Skipped(StatusKey, junk) {
      SkipsPart(StatusKey, xs, junk, ys);
      SamePairs(Tokens(xs + [junk] + ys), Tokens(xs + ys));
    }
  }

  /** In any header value, a blank part or a parameter with an unknown key may be put
      between any two parts, in front or at the end, and neither parse changes. */
  lemma IgnoresExtra(a: string, junk: string, b: string)
    requires ';' !in junk
    ensures Skipped(ReqKey, junk) ==>
      && ParseReq(a + ";" + junk + ";" + b) == ParseReq(a + ";" + b)
      && ParseReq(a + ";" + junk) == ParseReq(a) && ParseReq(junk + ";" + b) == ParseReq(b)
    ensures Skipped(StatusKey, junk) ==>
      && ParseStatus(a + ";" + junk + ";" + b) == ParseStatus(a + ";" + b)
      && ParseStatus(a + ";" + junk) == ParseStatus(a) && ParseStatus(junk + ";" + b) == ParseStatus(b)
  {
    hide Split, Skipped, ParseReq, ParseStatus;
    var xs, ys := Split(a, ';'), Split(b, ';');
    SplitOne(junk, ';');
    SplitAppend(a, ';', b);
    SplitAppend(a, ';', junk);
    SplitAppend(junk, ';', b);
    SplitAppend(a + ";" + junk, ';', b);
    assert [junk] + ys == [] + [junk] + ys && [] + ys == ys;
    assert xs + [junk] == xs + [junk] + [] && xs + [] == xs;
    SkipsIn(a + ";" + junk + ";" + b, a + ";" + b, xs, junk, ys);
    SkipsIn(a + ";" + junk, a, xs, junk, []);
    SkipsIn(junk + ";" + b, b, [], junk, ys);
  }

  /** A trailing semicolon. */
  lemma TrailingSemicolon(s: string)
    ensures ParseReq(s + ";") == ParseReq(s) && ParseStatus(s + ";") == ParseStatus(s)
  {
    hide ParseReq, ParseStatus, Skipped;
    BlankSkipped(ReqKey, "");
    BlankSkipped(StatusKey, "");
    IgnoresExtra(s, "", "");
    assert s + ";" + "" == s + ";";
  }

  /** An unknown parameter, in any spacing, between any two parts. */
  lemma UnknownParameter(a: string, key: string, value: string, b: string)
    requires '=' !in key && ';' !in key && ';' !in value
    ensures !ReqKey(Trim(key)) ==> ParseReq(a + ";" + (key + "=" + value) + ";" + b) == ParseReq(a + ";" + b)
    ensures !StatusKey(Trim(key)) ==> ParseStatus(a + ";" + (key + "=" + value) + ";" + b) == ParseStatus(a + ";" + b)
  {
    hide ParseReq, ParseStatus, Skipped, Trim, ReqKey, StatusKey;
    IgnoresExtra(a, key + "=" + value, b);
    if !ReqKey(Trim(key)) {
      UnknownSkipped(ReqKey, key, value);
    }
    if !StatusKey(Trim(key)) {
      UnknownSkipped(StatusKey, key, value);
    }
  }

  /** Two header values with the same parts but for blanks around one. */
  lemma BlanksIn(padded: string, plain: string, xs: seq<string>, w: string, part: string, v: string, ys: seq<string>)
    requires Blank(w) && Blank(v)
    requires Split(padded, ';') == xs + [w + part + v] + ys && Split(plain, ';') == xs + [part] + ys
    ensures ParseReq(padded) == ParseReq(plain) && ParseStatus(padded) == ParseStatus(plain)
  {
    hide Tokens, Split, ReqOfTokens, StatusOfTokens, Trim, Find;
    TrimBlanks(w, part, v);
    TokensMiddle(xs, w + part + v, ys);
    TokensMiddle(xs, part, ys);
  }

  /** Blanks around any part of any header value change nothing. */
  lemma IgnoresBlanks(a: string, w: string, part: string, v: string, b: string)
    requires ';' !in part && Blank(w) && Blank(v)
    ensures ParseReq(a + ";" + (w + part + v) + ";" + b) == ParseReq(a + ";" + part + ";" + b)
    ensures ParseReq(a + ";" + (w + part + v)) == ParseReq(a + ";" + part)
    ensures ParseReq((w + part + v) + ";" + b) == ParseReq(part + ";" + b) && ParseReq(w + part + v) == ParseReq(part)
    ensures ParseStatus(a + ";" + (w + part + v) + ";" + b) == ParseStatus(a + ";" + part + ";" + b)
    ensures ParseStatus(a + ";" + (w + part + v)) == ParseStatus(a + ";" + part)
    ensures ParseStatus((w + part + v) + ";" + b) == ParseStatus(part + ";" + b) && ParseStatus(w + part + v) == ParseStatus(part)
  {
    hide Split, ParseReq, ParseStatus, Blank;
    var p, xs, ys := w + part + v, Split(a, ';'), Split(b, ';');
    BlankNoSemicolon(w);
    BlankNoSemicolon(v);
    PartSplits(a, p, b);
    PartSplits(a, part, b);
    BlanksIn(a + ";" + p + ";" + b, a + ";" + part + ";" + b, xs, w, part, v, ys);
    BlanksIn(a + ";" + p, a + ";" + part, xs, w, part, v, []);
    BlanksIn(p + ";" + b, part + ";" + b, [], w, part, v, ys);
    BlanksIn(p, part, [], w, part, v, []);
  }

  lemma PartSplits(a: string, p: string, b: string)
    requires ';' !in p
    ensures Split(a + ";" + p + ";" + b, ';') == Split(a, ';') + [p] + Split(b, ';')
    ensures Split(a + ";" + p, ';') == Split(a, ';') + [p] + []
    ensures Split(p + ";" + b, ';') == [] + [p] + Split(b, ';') && Split(p, ';') == [] + [p] + []
  {
    hide Split;
    SplitOne(p, ';');
    SplitAppend(a, ';', p);
    SplitAppend(p, ';', b);
    SplitAppend(a + ";" + p, ';', b);
  }

  lemma BlankNoSemicolon(w: string)
    requires Blank(w)
    ensures ';' !in w
  {
  }
}
