/**
 * Logging in: the proxy sends a nonce, the client answers with its callsign, a newline
 * and a digest of its password and the nonce.  The answer has no fixed length; the
 * proxy reads sixteen bytes, finds the newline among them, and then reads the rest.
 */
module Handshake {
  import opened Bytes
  import opened Connections
  import opened Hex
  import Frames
  import Md5Spec
  import Md5Stream

  const RESPONSE: nat := 16
  const BAD_PASSWORD: seq<byte> := [7, 0, 0, 0, 0, 1, 0, 0, 0, 1]
  const BAD_CALLSIGN: seq<byte> := [7, 0, 0, 0, 0, 1, 0, 0, 0, 2]

  // ---- passwords ----

  function Upper(b: byte): byte { if 97 <= b <= 122 then b - 32 else b }

  function UpperAll(s: seq<byte>): (u: seq<byte>)
    ensures |u| == |s| && forall i | 0 <= i < |s| :: u[i] == Upper(s[i])
  {
    seq(|s|, i requires 0 <= i < |s| => Upper(s[i]))
  }

  /** The same letter of the alphabet in its two cases. */
  predicate TwoCases(a: byte, b: byte) { 97 <= a <= 122 && b as int == a as int - 32 }

  predicate SameButCase(p: seq<byte>, q: seq<byte>) {
    |p| == |q| && forall i | 0 <= i < |p| :: p[i] == q[i] || TwoCases(p[i], q[i]) || TwoCases(q[i], p[i])
  }

  predicate LowerCase(b: byte) { 97 <= b <= 122 }

  /** Upper-casing leaves no lower-case letter, turns each into its capital, and touches nothing else. */
  lemma UpperAllIsUpper(p: seq<byte>)
    ensures var u := UpperAll(p);
      && SameButCase(u, p)
      && (forall i | 0 <= i < |p| :: !LowerCase(u[i]) && (!LowerCase(p[i]) ==> u[i] == p[i]))
  {
  }

  /** There is only one text of that kind. */
  lemma UpperIsUnique(u: seq<byte>, p: seq<byte>)
    requires SameButCase(u, p) && forall i | 0 <= i < |u| :: !LowerCase(u[i])
    ensures u == UpperAll(p)
  {
  }

  lemma UpperIffSame(p: seq<byte>, q: seq<byte>)
    ensures UpperAll(p) == UpperAll(q) <==> SameButCase(p, q)
  {
    if UpperAll(p) == UpperAll(q) {
      assert |UpperAll(p)| == |UpperAll(q)|;
      forall i | 0 <= i < |p| ensures p[i] == q[i] || TwoCases(p[i], q[i]) || TwoCases(q[i], p[i]) {
        assert UpperAll(p)[i] == UpperAll(q)[i];
      }
    }
  }

  /** The answer to a nonce: the digest of the upper-cased password and the nonce in base 16. */
  function Response(nonce: nat, password: seq<byte>): (r: seq<byte>)
    requires nonce < M32
    ensures |r| == RESPONSE
  {
    Md5Spec.Digest(UpperAll(password) + ToHex(nonce))
  }

  /** The digest of the password without its lower-case letters, in capitals instead, and the nonce. */
  ghost predicate IsResponse(response: seq<byte>, nonce: nat, password: seq<byte>)
    requires nonce < M32
  {
    exists u :: SameButCase(u, password) && (forall i | 0 <= i < |u| :: !LowerCase(u[i])) &&
                response == Md5Spec.Digest(u + ToHex(nonce))
  }

  method GetDigest(data: seq<byte>) returns (result: seq<byte>)
    ensures result == Md5Spec.Digest(data)
  {
    hide Md5Spec.Digest, Md5Stream.Context.Valid;
    var ctx := new Md5Stream.Context.Init(32);
    ctx.Update(data);
    assert [] + data == data;
    result := ctx.Final();
  }

  method GetPasswordResponse(nonce: nat, password: seq<byte>) returns (response: seq<byte>)
    requires nonce < M32
    ensures response == Response(nonce, password)
    ensures IsResponse(response, nonce, password)
  {
    UpperAllIsUpper(password);
    hide ToHex, Md5Spec.Digest;
    var work := new byte[|password| + 8];
    for i := 0 to |password|
      invariant work[..i] == UpperAll(password)[..i]
    {
      work[i] := if 97 <= password[i] && password[i] <= 122 then password[i] - 32 else password[i];
    }
    WriteHex32(nonce, work, |password|);
    assert work[..] == UpperAll(password) + ToHex(nonce);
    response := GetDigest(work[..]);
  }

  // ---- what the proxy makes of an answer ----

  datatype Login =
    | Short                                  // the stream ends first
    | Unterminated                           // no newline among the first eleven bytes
    | WrongPassword(callsign: seq<byte>)
    | Unwelcome(callsign: seq<byte>)
    | Welcome(callsign: seq<byte>)

  /** A string ends before its first zero. */
  function CString(s: seq<byte>): seq<byte> {
    if s == [] || s[0] == 0 then [] else [s[0]] + CString(s[1..])
  }

  function Answer(s: seq<byte>, expected: seq<byte>, allowed: seq<byte> -> bool): Login {
    if |s| < 16 then Short else
      var k := Find(s[..11], NEWLINE);
      if k == 11 then Unterminated
      else if |s| < k + 17 then Short
      else
        var callsign := CString(s[..k]);
        if s[k + 1..k + 17] != expected then WrongPassword(callsign)
        else if !allowed(callsign) then Unwelcome(callsign)
        else Welcome(callsign)
  }

  /** How much of the stream an answer takes up. */
  function Length(s: seq<byte>): nat
    requires |s| >= 16
  {
    var k := Find(s[..11], NEWLINE);
    if k == 11 then 16 else k + 17
  }

  /** What the proxy says back. */
  function Complaint(login: Login): seq<byte> {
    match login
    case WrongPassword(_) => BAD_PASSWORD
    case Unwelcome(_) => BAD_CALLSIGN
    case _ => []
  }

  /** Look for a newline among the first eleven bytes. */
  method FindNewline(buff: array<byte>) returns (idx: nat)
    requires buff.Length >= 16
    ensures idx == Find(buff[..11], NEWLINE)
  {
    idx := 0;
    while idx < 11 && buff[idx] != NEWLINE
      invariant 0 <= idx <= 11 && NEWLINE !in buff[..idx]
    {
      idx := idx + 1;
    }
    assert buff[..11][..idx] == buff[..idx];
    FindFirst(buff[..11], NEWLINE, idx);
  }

  method Matches(buff: array<byte>, at: nat, expected: seq<byte>) returns (same: bool)
    requires |expected| == RESPONSE && at + RESPONSE <= buff.Length
    ensures same <==> buff[at..at + RESPONSE] == expected
  {
    for j := 0 to RESPONSE
      invariant expected[..j] == buff[at..at + j]
    {
      if expected[j] != buff[at + j] {
        assert buff[at..at + RESPONSE][j] != expected[j];
        return false;
      }
    }
    return true;
  }

  /**
   * The complaint is a message of kind 7 with one byte, 1 for a wrong password and 2 for
   * a callsign that is not allowed, and there is none for any other verdict.
   */
  lemma ComplaintTells(login: Login)
    ensures var read := Frames.Parse(Complaint(login));
      if login.WrongPassword? then read == Frames.Got(Frames.Frame(7, [0, 0, 0, 0], [1]), [])
      else if login.Unwelcome? then read == Frames.Got(Frames.Frame(7, [0, 0, 0, 0], [2]), [])
      else Complaint(login) == []
  {
  }

  class ProxyWorker {
    const conn: Conn
    const password: seq<byte>
    const allowed: seq<byte> -> bool
    var callsign: seq<byte>

    constructor (conn: Conn, password: seq<byte>, allowed: seq<byte> -> bool)
      ensures this.conn == conn && this.password == password && this.allowed == allowed && callsign == []
    {
      this.conn, this.password, this.allowed, callsign := conn, password, allowed, [];
    }

    /** Read an answer into 28 bytes and compare it with the expected response. */
    method ReadAnswer(expected: seq<byte>) returns (ret: int)
      requires |expected| == RESPONSE && conn.whole
      modifies `callsign, conn`incoming, conn`outgoing
      ensures ret <= 0
      ensures ret == 0 ==>
        Answer(old(conn.incoming), expected, allowed) == Welcome(callsign) &&
        conn.incoming == old(conn.incoming)[Length(old(conn.incoming))..]
      ensures conn.connected && !conn.faulty ==>
        var login := Answer(old(conn.incoming), expected, allowed);
        && (ret == 0 <==> login.Welcome?)
        && (ret == -EINVAL <==> login.Unterminated?)
        && (ret == -EACCES <==> login.WrongPassword? || login.Unwelcome?)
        && (!login.Short? && !login.Unterminated? ==> callsign == login.callsign && |callsign| <= 10)
        && (!login.Short? ==> conn.incoming == old(conn.incoming)[Length(old(conn.incoming))..])
        && conn.outgoing == old(conn.outgoing) + Complaint(login)
    {
      hide CString;
      ghost var s := conn.incoming;
      var buff := new byte[28](_ => 0);
      var idx;
      ret, idx := ReadCallsign(buff);
      if ret < 0 { return; }
      ghost var front := buff[idx + 1..16];
      ret := conn.Receive(buff, 16, idx + 1);
      if ret < 0 { return; }
      assert s[idx + 1..idx + 17] == s[idx + 1..16] + s[16..idx + 17];
      assert s[16..][..idx + 1] == s[16..idx + 17];
      assert buff[idx + 1..idx + 17] == front + s[16..idx + 17];
      assert conn.incoming == s[idx + 17..];
      var same := Matches(buff, idx + 1, expected);
      if !same {
        ret := Refuse(BAD_PASSWORD);
        return;
      }
      if !allowed(callsign) {
        ret := Refuse(BAD_CALLSIGN);
        return;
      }
      ret := 0;
    }

    /** The first read: find the newline and keep what precedes it. */
    method ReadCallsign(buff: array<byte>) returns (ret: int, idx: nat)
      requires buff.Length == 28
      modifies buff, `callsign, conn`incoming
      ensures ret <= 0
      ensures ret == 0 ==>
        && |old(conn.incoming)| >= 16 && idx == Find(old(conn.incoming)[..11], NEWLINE) < 11
        && conn.incoming == old(conn.incoming)[16..]
        && callsign == CString(old(conn.incoming)[..idx]) && |callsign| <= 10
        && buff[idx + 1..16] == old(conn.incoming)[idx + 1..16]
      ensures conn.connected && !conn.faulty && ret < 0 ==>
        if |old(conn.incoming)| < 16 then ret == -EPIPE
        else
          ret == -EINVAL && Find(old(conn.incoming)[..11], NEWLINE) == 11 && conn.incoming == old(conn.incoming)[16..]
    {
      hide CString;
      idx := 0;
      ghost var s := conn.incoming;
      ret := conn.Receive(buff, 0, 16);
      if ret < 0 { return; }
      assert buff[..16] == s[..16] && buff[..11] == s[..11];
      idx := FindNewline(buff);
      if idx >= 11 { return -EINVAL, idx; }
      buff[idx] := 0;
      CStringStops(s[..idx], buff[idx..]);
      assert buff[..] == s[..idx] + buff[idx..];
      callsign := CString(buff[..]);
      CStringShort(s[..idx]);
      ret := 0;
    }

    method Refuse(message: seq<byte>) returns (ret: int)
      requires conn.whole
      modifies conn`outgoing
      ensures ret < 0
      ensures conn.connected && !conn.faulty ==> ret == -EACCES && conn.outgoing == old(conn.outgoing) + message
    {
      ghost var takes;
      ret, takes := conn.Send(message);
      if ret >= 0 { ret := -EACCES; }
    }

    /** Send a nonce and judge the answer. */
    method Authorize(nonce: nat) returns (ret: int)
      requires nonce < M32 && conn.whole
      modifies `callsign, conn`incoming, conn`outgoing
      ensures ret == 0 ==> Answer(old(conn.incoming), Response(nonce, password), allowed) == Welcome(callsign)
      ensures conn.connected && !conn.faulty ==>
        var login := Answer(old(conn.incoming), Response(nonce, password), allowed);
        && (ret == 0 <==> login.Welcome?)
        && (!login.Short? && !login.Unterminated? ==> callsign == login.callsign)
        && (!login.Short? ==> conn.incoming == old(conn.incoming)[Length(old(conn.incoming))..])
        && conn.outgoing == old(conn.outgoing) + ToHex(nonce) + Complaint(login)
    {
      hide ToHex, Response, Answer, Length, Complaint, IsResponse;
      var text := new byte[8];
      WriteHex32(nonce, text, 0);
      assert text[..] == ToHex(nonce);
      var expected := GetPasswordResponse(nonce, password);
      ghost var takes;
      ret, takes := conn.Send(text[..]);
      if ret < 0 { return; }
      ret := ReadAnswer(expected);
    }
  }

  lemma {:induction false} CStringStops(s: seq<byte>, rest: seq<byte>)
    requires rest != [] && rest[0] == 0
    ensures CString(s + rest) == CString(s)
  {
    if s == [] {
      assert s + rest == rest;
    } else {
      assert (s + rest)[1..] == s[1..] + rest;
      CStringStops(s[1..], rest);
    }
  }

  lemma {:induction false} CStringShort(s: seq<byte>)
    ensures |CString(s)| <= |s| && (CString(s) == s <==> 0 !in s)
  {
    if s != [] {
      CStringShort(s[1..]);
      assert s == [s[0]] + s[1..];
    }
  }

  // ---- the client ----

  class LoginClient {
    const conn: Conn
    const callsign: seq<byte>
    const password: seq<byte>

    constructor (conn: Conn, callsign: seq<byte>, password: seq<byte>)
      ensures this.conn == conn && this.callsign == callsign && this.password == password
    {
      this.conn, this.callsign, this.password := conn, callsign, password;
    }

    /** Receive a nonce and answer it. */
    method Connect() returns (ret: int)
      requires conn.whole
      modifies conn`incoming, conn`outgoing, conn`connected
      ensures ret <= 0 && (ret < 0 ==> !conn.connected)
      ensures ret == 0 ==>
        8 <= |old(conn.incoming)| && conn.incoming == old(conn.incoming)[8..] &&
        conn.outgoing == old(conn.outgoing) + Reply(old(conn.incoming)[..8], callsign, password)
      ensures old(conn.connected) && !conn.faulty && 8 <= |old(conn.incoming)| ==> ret == 0
    {
      hide FromHex, Response, IsResponse;
      ghost var takes;
      var text := new byte[8];
      ret := conn.Receive(text, 0, 8);
      if ret < 0 { conn.connected := false; return; }
      assert text[..] == old(conn.incoming)[..8];
      var response := GetPasswordResponse(FromHex(text[..]), password);
      ret, takes := conn.Send(callsign);
      if ret < 0 { conn.connected := false; return; }
      ret, takes := conn.Send([NEWLINE]);
      if ret < 0 { conn.connected := false; return; }
      ret, takes := conn.Send(response);
      if ret < 0 { conn.connected := false; return; }
      Reassociate(old(conn.outgoing), callsign, [NEWLINE]);
      Reassociate(old(conn.outgoing), callsign + [NEWLINE], response);
    }
  }

  function Reply(text: seq<byte>, callsign: seq<byte>, password: seq<byte>): seq<byte>
    requires |text| == 8
  {
    callsign + [NEWLINE] + Response(FromHex(text), password)
  }

  // ---- both together ----

  /** The callsigns the proxy's two reads are made for. */
  predicate Proper(callsign: seq<byte>) { |callsign| <= 10 && NEWLINE !in callsign && 0 !in callsign }

  /**
   * The proxy takes a client's answer for what it is, callsign and length, exactly when
   * the callsign is proper; and then only the digest and the callsign decide.
   */
  lemma AnswerIffProper(callsign: seq<byte>, response: seq<byte>, rest: seq<byte>, allowed: seq<byte> -> bool)
    requires |response| == RESPONSE
    ensures var s := callsign + [NEWLINE] + response + rest;
      Answer(s, response, allowed) == (if allowed(callsign) then Welcome(callsign) else Unwelcome(callsign)) &&
      Length(s) == |callsign| + 17
      <==> Proper(callsign)
  {
    var s := callsign + [NEWLINE] + response + rest;
    var k := Find(s[..11], NEWLINE);
    if |callsign| <= 10 && NEWLINE !in callsign {
      assert s[..11][..|callsign|] == callsign;
      FindFirst(s[..11], NEWLINE, |callsign|);
      assert s[..k] == callsign && s[k + 1..k + 17] == response;
      CStringShort(callsign);
    } else {
      assert k == |callsign| ==> s[..11][..k] == callsign;
    }
  }

  /** A wrong answer to the nonce is always told so. */
  lemma WrongAnswer(callsign: seq<byte>, response: seq<byte>, expected: seq<byte>, rest: seq<byte>,
                    allowed: seq<byte> -> bool)
    requires Proper(callsign) && |response| == |expected| == RESPONSE && response != expected
    ensures Answer(callsign + [NEWLINE] + response + rest, expected, allowed) == WrongPassword(callsign)
  {
    var s := callsign + [NEWLINE] + response + rest;
    assert s[..11][..|callsign|] == callsign;
    FindFirst(s[..11], NEWLINE, |callsign|);
    var k := |callsign|;
    assert s[..k] == callsign && s[k + 1..k + 17] == response;
    CStringShort(callsign);
  }

  /**
   * The proxy waits for more exactly when what comes could change its verdict; and a
   * sender is given up on exactly when eleven of the first sixteen bytes hold no newline.
   */
  lemma ShortIffUndecided(s: seq<byte>, expected: seq<byte>, allowed: seq<byte> -> bool)
    ensures Answer(s, expected, allowed).Short? <==>
            exists more :: Answer(s + more, expected, allowed) != Answer(s, expected, allowed)
    ensures Answer(s, expected, allowed).Unterminated? <==> |s| >= 16 && 10 !in s[..11]
  {
    var more := seq(27, _ => 0 as byte);
    if Answer(s, expected, allowed).Short? {
      assert !Answer(s + more, expected, allowed).Short?;
    } else {
      forall t: seq<byte> ensures Answer(s + t, expected, allowed) == Answer(s, expected, allowed) {
        assert (s + t)[..11] == s[..11];
        var k := Find(s[..11], NEWLINE);
        if k < 11 { assert (s + t)[..k] == s[..k] && (s + t)[k + 1..k + 17] == s[k + 1..k + 17]; }
      }
    }
  }

  /** A verdict is reached from the shortest front that allows one, and what follows does not matter. */
  lemma TakesWhatDecides(s: seq<byte>, expected: seq<byte>, allowed: seq<byte> -> bool, n: nat)
    requires !Answer(s, expected, allowed).Short? && n <= |s|
    ensures Length(s) <= |s|
    ensures if n < Length(s) then Answer(s[..n], expected, allowed).Short?
            else Answer(s[..n], expected, allowed) == Answer(s, expected, allowed)
  {
    if n >= 16 {
      var t, k := s[..n], Find(s[..11], NEWLINE);
      assert t[..11] == s[..11];
      if k < 11 && n >= k + 17 { assert t[..k] == s[..k] && t[k + 1..k + 17] == s[k + 1..k + 17]; }
    }
  }

  /**
   * A client with a proper callsign and the same password up to the case of its letters
   * always passes the password check, for every nonce.
   */
  lemma LoginRoundTrip(nonce: nat, callsign: seq<byte>, theirs: seq<byte>, ours: seq<byte>, rest: seq<byte>,
                       allowed: seq<byte> -> bool)
    requires nonce < M32 && Proper(callsign) && SameButCase(theirs, ours)
    ensures var s := Reply(ToHex(nonce), callsign, theirs) + rest;
      Answer(s, Response(nonce, ours), allowed) ==
        (if allowed(callsign) then Welcome(callsign) else Unwelcome(callsign)) &&
      Length(s) == |callsign| + 17
  {
    hide ToHex, FromHex, Md5Spec.Digest, Answer, Length;
    FromHexUndoesToHex(nonce);
    UpperIffSame(theirs, ours);
    AnswerIffProper(callsign, Response(nonce, ours), rest, allowed);
  }
}
