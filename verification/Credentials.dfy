/** How a request proves that its sender knows a password, and how the backend checks it. */
module Credentials {
  import opened Tea
  import opened Text
  import opened TextCoder
  import opened Options

  /** MD5, of which only the form of its result matters here: 32 hexadecimal characters. */
  type Digest = Text -> Text

  ghost predicate IsDigest(md5: Digest) {
    forall t: Text :: |md5(t)| == 32 && AllHex(md5(t))
  }

  datatype Verdict = Accepted | InvalidCredStage1 | InvalidCredStage2

  /** substr(0, n). */
  function Take(t: Text, n: nat): Text {
    if |t| < n then t else t[..n]
  }

  /** The key of a request: the session id when there is a session, and the password otherwise. */
  function RequestKey(password: Text, sessionId: Option<Text>): Text {
    if sessionId.Some? then sessionId.value else password
  }

  /** The cred parameter of a request sent at the given time, under the session id if there is one. */
  method Credential(target: Target, time: Text, password: Text, sessionId: Option<Text>, md5: Digest)
    returns (credentials: Text)
    requires IsDigest(md5)
    ensures credentials ==
            Encrypted(md5(time) + [COLON] + md5(md5(time)), KeyOf(md5(RequestKey(password, sessionId))))
    ensures sessionId == None ==>
              credentials == Encrypted(md5(time) + [COLON] + md5(md5(time)), KeyOf(md5(password)))
    ensures sessionId.Some? ==>
              credentials == Encrypted(md5(time) + [COLON] + md5(md5(time)), KeyOf(md5(sessionId.value)))
  {
    var key := RequestKey(password, sessionId);
    var s1 := md5(time);
    credentials := Encrypt(target, s1 + [COLON] + md5(s1), md5(key));
  }

  /** The verdict on a decrypted text: a part and its digest, split by one colon. */
  function VerdictOn(decrypted: Text, md5: Digest): Verdict {
    var sections := Split(decrypted, COLON);
    if |sections| != 2 then InvalidCredStage1
    else if Take(md5(sections[0]), 32) != Take(sections[1], 32) then InvalidCredStage2
    else Accepted
  }

  /** A part, one colon, and the digest of the part with anything but colons after it. */
  ghost predicate Proves(t: Text, a: Text, b: Text, md5: Digest) {
    && t == a + [58] + b && 58 !in a && 58 !in b
    && |b| >= 32 && b[..32] == md5(a)
  }

  /**
    Accepted is exactly a text of a part and its digest around the only colon; without exactly one
    colon it fails at the first stage.
   */
  lemma VerdictIs(t: Text, md5: Digest)
    requires IsDigest(md5)
    ensures VerdictOn(t, md5) == InvalidCredStage1 <==> multiset(t)[58] != 1
    ensures VerdictOn(t, md5) == Accepted <==> exists a, b :: Proves(t, a, b, md5)
  {
    SplitCount(t, COLON);
    var sections := Split(t, COLON);
    if |sections| == 2 {
      SplitInTwo(t, COLON);
      var a, b := sections[0], sections[1];
      assert md5(a)[..32] == md5(a);
      assert VerdictOn(t, md5) == Accepted ==> Proves(t, a, b, md5);
    }
    if exists a, b :: Proves(t, a, b, md5) {
      var a, b :| Proves(t, a, b, md5);
      SplitOfConcat(a, b, COLON);
      SplitWithout(b, COLON);
      assert md5(a)[..32] == md5(a);
    }
  }

  method CheckCredentials(target: Target, credentials: Text, password: Text, md5: Digest) returns (verdict: Verdict)
    requires IsDigest(md5)
    ensures var t := Decrypted(credentials, KeyOf(md5(password)));
            && verdict == VerdictOn(t, md5)
            && (verdict == InvalidCredStage1 <==> multiset(t)[58] != 1)
            && (verdict == Accepted <==> exists a, b :: Proves(t, a, b, md5))
  {
    var decrypted := Decrypt(target, credentials, md5(password));
    VerdictIs(decrypted, md5);
    var sections := Split(decrypted, COLON);
    if |sections| != 2 {
      return InvalidCredStage1;
    }
    if Take(md5(sections[0]), 32) != Take(sections[1], 32) {
      return InvalidCredStage2;
    }
    return Accepted;
  }

  lemma NotInHex(t: Text, c: Byte)
    requires AllHex(t) && !IsHex(c)
    ensures c !in t
  {
  }

  /** NUL padding disturbs neither the split in two nor the compared prefix. */
  lemma PaddingIsHarmless(a: Text, b: Text, md5: Digest)
    requires COLON !in a && COLON !in b && |b| == 32
    ensures VerdictOn(Padded(a + [COLON] + b), md5) ==
            if Take(md5(a), 32) == b then Accepted else InvalidCredStage2
  {
    var t := a + [COLON] + b;
    var padding := Padded(t)[|t|..];
    assert Padded(t) == a + [COLON] + (b + padding);
    assert COLON !in b + padding;
    SplitOfConcat(a, b + padding, COLON);
    SplitWithout(b + padding, COLON);
    assert (b + padding)[..32] == b;
  }

  /** Every credential built with the user's password is accepted, whatever the time and the digest. */
  lemma SentIsAccepted(time: Text, password: Text, md5: Digest)
    requires IsDigest(md5)
    ensures VerdictOn(Decrypted(Encrypted(md5(time) + [COLON] + md5(md5(time)), KeyOf(md5(password))),
                                KeyOf(md5(password))), md5) == Accepted
  {
    var s1 := md5(time);
    DecryptEncrypt(s1 + [COLON] + md5(s1), KeyOf(md5(password)));
    NotInHex(s1, COLON);
    NotInHex(md5(s1), COLON);
    PaddingIsHarmless(s1, md5(s1), md5);
  }

  /**
    The two sides may run on different targets. A request with a session is accepted under the session
    id, and one without under the password.
   */
  method SendAndCheck(client: Target, backend: Target, time: Text, password: Text, sessionId: Option<Text>, md5: Digest)
    returns (verdict: Verdict)
    requires IsDigest(md5)
    ensures verdict == Accepted
  {
    var credentials := Credential(client, time, password, sessionId, md5);
    match sessionId {
      case None =>
        verdict := CheckCredentials(backend, credentials, password, md5);
        SentIsAccepted(time, password, md5);
      case Some(id) =>
        verdict := CheckCredentials(backend, credentials, id, md5);
        SentIsAccepted(time, id, md5);
    }
  }
}
