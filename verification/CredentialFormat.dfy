/**
 The shape of an enrollment credential and the size of the JSON recovery journal that must be able to hold it.
 */
module CredentialFormat {

  const MAX_ENROLLMENT_FILE := 4096

  datatype Journal = Journal(
    enrollmentId: string, clientBinding: string, code: string, idempotencyKey: string,
    credentialPath: string, legacyPublicKey: string, credential: string)

  predicate LowerHex(c: char) {
    '0' <= c <= '9' || 'a' <= c <= 'f'
  }

  /** The canonical 8-4-4-4-12 lower-case form, the only one that parses and prints back to itself. */
  predicate ValidUuid(s: string) {
    |s| == 36 &&
    forall i | 0 <= i < 36 :: if i in {8, 13, 18, 23} then s[i] == '-' else LowerHex(s[i])
  }

  predicate Base64Url(c: char) {
    'A' <= c <= 'Z' || 'a' <= c <= 'z' || '0' <= c <= '9' || c == '-' || c == '_'
  }

  /** Six bits per character. */
  function Sextet(c: char): (n: nat)
    requires Base64Url(c)
    ensures n < 64
  {
    if 'A' <= c <= 'Z' then (c - 'A') as nat
    else if 'a' <= c <= 'z' then (c - 'a') as nat + 26
    else if '0' <= c <= '9' then (c - '0') as nat + 52
    else if c == '-' then 62 else 63
  }

  /** Strict unpadded decoding succeeds: whole bytes, and the unused low bits of the last character are zero. */
  predicate Decodes(s: string) {
    && (forall i | 0 <= i < |s| :: Base64Url(s[i]))
    && |s| % 4 != 1
    && (|s| % 4 == 2 ==> Sextet(s[|s| - 1]) % 16 == 0)
    && (|s| % 4 == 3 ==> Sextet(s[|s| - 1]) % 4 == 0)
  }

  function DecodedLength(s: string): nat {
    |s| * 6 / 8
  }

  /** The position of the first dot, or the length when there is none. */
  function FirstDot(s: string): (i: nat)
    ensures i <= |s| && '.' !in s[..i]
    ensures i < |s| ==> s[i] == '.'
  {
    if s == [] || s[0] == '.' then 0
    else
      assert s == [s[0]] + s[1..];
      1 + FirstDot(s[1..])
  }

  predicate ValidStoredCredential(s: string) {
    var dot := FirstDot(s);
    && dot < |s| && ValidUuid(s[..dot])
    && Decodes(s[dot + 1..]) && DecodedLength(s[dot + 1..]) == 32
  }

  function Repeat(c: char, n: nat): (s: string)
    ensures |s| == n && forall i | 0 <= i < n :: s[i] == c
  {
    if n == 0 then "" else [c] + Repeat(c, n - 1)
  }

  /** The credential the size reservation assumes. */
  function Placeholder(): string {
    "00000000-0000-4000-8000-000000000000." + Repeat('A', 43)
  }

  /** How many bytes the JSON encoder writes for one character. */
  function EscapedLength(c: char): (n: nat)
    ensures n >= 1
  {
    if c == '"' || c == '\\' || c == '\n' || c == '\r' || c == '\t' || c == '\U{8}' || c == '\U{c}' then 2
    else if c < ' ' || c == '<' || c == '>' || c == '&' || c == '\U{2028}' || c == '\U{2029}' then 6
    else if c < '\U{80}' then 1
    else if c < '\U{800}' then 2
    else if c < '\U{10000}' then 3
    else 4
  }

  function StringLength(s: string): nat {
    if s == [] then 0 else EscapedLength(s[0]) + StringLength(s[1..])
  }

  /** Quoted name, colon, quoted value and the separator that follows it. */
  function MemberLength(name: string, value: string): nat {
    |name| + StringLength(value) + 6
  }

  function MembersLength(members: seq<(string, string)>): nat {
    if members == [] then 0
    else
      var last := members[|members| - 1];
      MembersLength(members[..|members| - 1]) + MemberLength(last.0, last.1)
  }

  /** An empty optional member is left out. */
  function Optional(name: string, value: string): seq<(string, string)> {
    if value == "" then [] else [(name, value)]
  }

  /** The members of the encoded journal other than the credential, which comes last. */
  function OtherMembers(j: Journal): seq<(string, string)> {
    [("enrollment_id", j.enrollmentId), ("client_binding", j.clientBinding), ("code", j.code),
     ("idempotency_key", j.idempotencyKey), ("credential_path", j.credentialPath)]
    + Optional("legacy_public_key", j.legacyPublicKey)
  }

  /** The encoded journal with its trailing newline: an opening brace, the members with one separator each
      (the last one counted for the closing brace), and the newline. */
  function EncodedLength(j: Journal): nat {
    2 + MembersLength(OtherMembers(j) + Optional("credential", j.credential))
  }

  predicate JournalFits(j: Journal) {
    EncodedLength(j) <= MAX_ENROLLMENT_FILE
  }

  predicate JournalCanPersistCredential(j: Journal) {
    JournalFits(j.(credential := Placeholder()))
  }

  predicate Plain(s: string) {
    forall i | 0 <= i < |s| :: EscapedLength(s[i]) == 1
  }

  lemma {:induction false} PlainLength(s: string)
    requires Plain(s)
    ensures StringLength(s) == |s|
  {
    if s != [] {
      PlainLength(s[1..]);
    }
  }

  lemma PlainAppend(a: string, b: string)
    requires Plain(a) && Plain(b)
    ensures Plain(a + b)
  {
  }

  lemma PlainJoin(a: string, b: string)
    requires Plain(a) && Plain(b)
    ensures Plain(a + "." + b)
  {
    PlainAppend(a, ".");
    PlainAppend(a + ".", b);
  }

  lemma SecretIsPlain(s: string)
    requires Decodes(s) && DecodedLength(s) == 32
    ensures |s| == 43 && Plain(s)
  {
    forall i | 0 <= i < |s|
      ensures EscapedLength(s[i]) == 1
    {
      assert Base64Url(s[i]);
    }
  }

  lemma UuidIsPlain(s: string)
    requires ValidUuid(s)
    ensures Plain(s)
  {
    forall i | 0 <= i < |s|
      ensures EscapedLength(s[i]) == 1
    {
      assert s[i] == '-' || LowerHex(s[i]);
    }
  }

  /** Every credential the client accepts is 80 characters that JSON does not escape. */
  lemma CredentialIsPlain(s: string)
    requires ValidStoredCredential(s)
    ensures |s| == 80 && Plain(s) && FirstDot(s) == 36
  {
    var dot := FirstDot(s);
    SecretIsPlain(s[dot + 1..]);
    UuidIsPlain(s[..dot]);
    PlainJoin(s[..dot], s[dot + 1..]);
    assert s == s[..dot] + "." + s[dot + 1..];
  }

  lemma PlaceholderIsPlain()
    ensures |Placeholder()| == 80 && Plain(Placeholder())
  {
    var zero := "00000000-0000-4000-8000-000000000000.";
    forall i | 0 <= i < |zero|
      ensures EscapedLength(zero[i]) == 1
    {
      assert zero[i] == '0' || zero[i] == '-' || zero[i] == '4' || zero[i] == '8' || zero[i] == '.';
    }
    PlainAppend(zero, Repeat('A', 43));
  }

  lemma CredentialComesLast(j: Journal, credential: string)
    requires credential != ""
    ensures EncodedLength(j.(credential := credential)) == 2 + MembersLength(OtherMembers(j))
            + MemberLength("credential", credential)
  {
    var members := OtherMembers(j) + Optional("credential", credential);
    assert members[..|members| - 1] == OtherMembers(j);
  }

  /** A journal that passed the reservation before the first request still fits with any accepted credential,
      and no journal that failed it would: the reservation is exact. */
  lemma ReservationIsExact(j: Journal, credential: string)
    requires ValidStoredCredential(credential)
    ensures JournalCanPersistCredential(j) <==> JournalFits(j.(credential := credential))
  {
    CredentialIsPlain(credential);
    PlainLength(credential);
    PlaceholderIsPlain();
    PlainLength(Placeholder());
    CredentialComesLast(j, credential);
    CredentialComesLast(j, Placeholder());
  }
}
