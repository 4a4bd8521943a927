/** The encrypted credential cache: the in-memory credential record, the
    symmetric key, and the two files it owns (the encrypted token file and the
    generated key file). A key string stands for the 32 bytes that
    `Fernet(key)` decodes from it, so two strings that decode alike are the
    same key. Fernet authenticated encryption is modelled symbolically: a
    sealed blob opens only under the key bytes that sealed it, and a tampered
    file opens under none. Time is the wall clock in integer seconds, passed
    in as `now`. */
module TokenStore {
  import opened Base
  import opened Errors
  import opened Text
  import Base64Url

  const DefaultExpiresIn: int := 3600
  /** The default look-ahead of `is_access_token_expired`. */
  const DefaultBuffer: int := 300

  /** The persisted credential: `{access_token, refresh_token, expires_at, scope}`. */
  datatype Credential = Credential(accessToken: string, refreshToken: string, expiresAt: int, scope: string)

  /** A token endpoint's JSON reply as a dictionary of typed fields; a
      missing key and a JSON `null` are both `None`. */
  datatype TokenResponse = TokenResponse(
    accessToken: Option<string>,
    refreshToken: Option<string>,
    expiresIn: Option<int>,
    scope: Option<string>,
    errorDescription: Option<string>)

  /** What `json.dumps` of the record produces, or text that `json.loads` rejects. */
  datatype Plaintext = Serialized(record: Credential) | NotJson

  /** The token file's content: a Fernet token sealed under a key's 32
      bytes, or bytes that are not a valid token (truncated, altered,
      foreign). */
  datatype Blob = Sealed(key: seq<Base64Url.byte>, payload: Plaintext) | Tampered

  datatype Disk = Disk(tokenFile: Option<Blob>, keyFile: Option<string>)

  datatype TokenStore = TokenStore(key: string, record: Option<Credential>, disk: Disk)

  /** The key `Fernet(key.encode())` works with: the bytes
      `base64.urlsafe_b64decode` gives for the string, which must be exactly
      32 (a signing half and an encryption half). `None` is the `ValueError`
      Fernet raises for anything else. The decoding is lenient: both base64
      alphabets are read, other characters are skipped, and the unused bits
      of the last digit are ignored. */
  function FernetKey(k: string): (r: Option<seq<Base64Url.byte>>)
    ensures r.Some? <==> Base64Url.LenientDecode(k).Some? && |Base64Url.LenientDecode(k).value| == 32
    ensures r.Some? ==> r.value == Base64Url.LenientDecode(k).value
  {
    match Base64Url.LenientDecode(k)
    case Some(b) => if |b| == 32 then Some(b) else None
    case None => None
  }

  /** A key string `Fernet` accepts. */
  predicate IsFernetKey(k: string) {
    FernetKey(k).Some?
  }

  function Encrypt(key: seq<Base64Url.byte>, p: Plaintext): Blob {
    Sealed(key, p)
  }

  /** Fernet decryption under a key's bytes: it opens exactly a token sealed
      under those bytes. `None` is `InvalidToken`. */
  function Decrypt(key: seq<Base64Url.byte>, b: Blob): (r: Option<Plaintext>)
    ensures r.Some? ==> b == Encrypt(key, r.value)
    ensures r.None? <==> !(b.Sealed? && b.key == key)
  {
    match b
    case Sealed(k, p) => if k == key then Some(p) else None
    case Tampered => None
  }

  lemma CipherRoundTrip(key: seq<Base64Url.byte>, other: seq<Base64Url.byte>, p: Plaintext)
    ensures Decrypt(key, Encrypt(key, p)) == Some(p)
    ensures other != key ==> Decrypt(other, Encrypt(key, p)) == None
  {
  }

  /** `Fernet.generate_key()` given its 32 random bytes: the URL-safe base64
      of the bytes, 44 characters ending in one `=`, which Fernet decodes back
      to exactly those bytes. */
  function GenerateKey(random: seq<Base64Url.byte>): (k: string)
    requires |random| == 32
    ensures FernetKey(k) == Some(random)
    ensures |k| == 44 && k[43] == '=' && Base64Url.IsUrlSafe(k[..43])
  {
    Base64Url.ThirtyTwoBytes(random);
    Base64Url.LenientDecodeEncode(random);
    Base64Url.Encode(random)
  }

  /** The same 32 bytes written in the standard alphabet, as
      `openssl rand -base64 32` or `base64.b64encode` would give them, are the
      same Fernet key. */
  lemma StandardAlphabetKey(random: seq<Base64Url.byte>)
    requires |random| == 32
    ensures FernetKey(Base64Url.ToStandard(GenerateKey(random))) == Some(random)
  {
    var k := GenerateKey(random);
    Base64Url.ToStandardSameLexemes(k);
    Base64Url.SameLexemesSameRun(Base64Url.ToStandard(k), k, Base64Url.Start);
  }

  /** The two bits the last digit of a key leaves unused do not matter:
      four different strings name each key. */
  lemma KeyLowBitsIgnored(random: seq<Base64Url.byte>, e: nat)
    requires |random| == 32
    ensures FernetKey(Base64Url.EncodeLoose(random, e)) == Some(random)
    ensures e % 4 != 0 ==> Base64Url.EncodeLoose(random, e) != GenerateKey(random)
  {
    Base64Url.RunEncodeLoose(random, e, []);
    assert [] + random == random;
    Base64Url.EncodeLooseZero(random);
    if e % 4 != 0 {
      Base64Url.EncodeLooseDiffers(random, e, 0);
    }
  }

  function NewStore(disk: Disk): TokenStore {
    TokenStore("", None, disk)
  }

  /** `_load_from_disk`: no token file leaves the in-memory record alone; a
      key Fernet refuses, a file that does not open under the key's bytes, or
      one that does not parse, leaves no record; otherwise the stored
      record. */
  function Load(s: TokenStore): (r: TokenStore)
    ensures r.key == s.key && r.disk == s.disk
    ensures s.disk.tokenFile.None? ==> r.record == s.record
    ensures s.disk.tokenFile.Some? && r.record.Some? ==>
      FernetKey(s.key).Some? && s.disk.tokenFile.value == Encrypt(FernetKey(s.key).value, Serialized(r.record.value))
    ensures s.disk.tokenFile.Some? && FernetKey(s.key).Some? &&
            Decrypt(FernetKey(s.key).value, s.disk.tokenFile.value).Some? &&
            Decrypt(FernetKey(s.key).value, s.disk.tokenFile.value).value.Serialized? ==>
      r.record == Some(Decrypt(FernetKey(s.key).value, s.disk.tokenFile.value).value.record)
  {
    match s.disk.tokenFile
    case None => s
    case Some(blob) =>
      match FernetKey(s.key)
      case None => s.(record := None)
      case Some(k) =>
        match Decrypt(k, blob)
        case Some(Serialized(c)) => s.(record := Some(c))
        case _ => s.(record := None)
  }

  /** `_save_to_disk`: nothing happens without a key or a record, or when
      Fernet refuses the key; otherwise the file holds the record sealed
      under the key's bytes. */
  function Save(s: TokenStore): (r: TokenStore)
    ensures r.key == s.key && r.record == s.record && r.disk.keyFile == s.disk.keyFile
    ensures r.disk.tokenFile != s.disk.tokenFile ==>
      s.record.Some? && FernetKey(s.key).Some? && r.disk.tokenFile == Some(Encrypt(FernetKey(s.key).value, Serialized(s.record.value)))
    ensures s.record.Some? && FernetKey(s.key).Some? ==>
      r.disk.tokenFile == Some(Encrypt(FernetKey(s.key).value, Serialized(s.record.value)))
  {
    if s.key == "" || s.record.None? then s
    else match FernetKey(s.key)
      case None => s
      case Some(k) => s.(disk := s.disk.(tokenFile := Some(Encrypt(k, Serialized(s.record.value)))))
  }

  /** `configure`: a non-empty supplied key wins; otherwise the key file's
      text with surrounding whitespace stripped, or a freshly generated key
      that is written to the key file; then the token file is loaded. */
  function Configure(s: TokenStore, suppliedKey: string, random: seq<Base64Url.byte>): (r: TokenStore)
    requires |random| == 32
    ensures suppliedKey != "" ==> r.key == suppliedKey && r.disk == s.disk
    ensures suppliedKey == "" && s.disk.keyFile.Some? ==> r.key == Strip(s.disk.keyFile.value) && r.disk == s.disk
    ensures suppliedKey == "" && s.disk.keyFile.None? ==>
      FernetKey(r.key) == Some(random) && r.disk == s.disk.(keyFile := Some(r.key))
    ensures r == Load(r.(record := s.record))
  {
    if suppliedKey != "" then Load(s.(key := suppliedKey))
    else match s.disk.keyFile
      case Some(text) => Load(s.(key := Strip(text)))
      case None =>
        var k := GenerateKey(random);
        Load(s.(key := k, disk := s.disk.(keyFile := Some(k))))
  }

  /** A key file whose generated key is followed by a newline (or any
      whitespace) gives that very key. */
  lemma KeyFileStripped(s: TokenStore, random: seq<Base64Url.byte>, tail: string, other: seq<Base64Url.byte>)
    requires |random| == 32 && |other| == 32
    requires forall i :: 0 <= i < |tail| ==> IsSpace(tail[i])
    ensures var disk := s.disk.(keyFile := Some(GenerateKey(random) + tail));
      Configure(s.(disk := disk), "", other).key == GenerateKey(random)
  {
    var k := GenerateKey(random);
    assert Base64Url.IsUrlSafeChar(k[..43][0]);
    assert k[0] == k[..43][0];
    StripTrailing(k, tail);
  }

  /** The record `store` builds from a token response received at `now`:
      `None` when the response has no access token (`KeyError`). */
  function Normalize(resp: TokenResponse, now: int): (c: Option<Credential>)
    ensures c.Some? <==> resp.accessToken.Some?
    ensures c.Some? ==> c.value.accessToken == resp.accessToken.value
    ensures c.Some? ==> c.value.refreshToken == resp.refreshToken.GetOr("")
    ensures c.Some? ==> c.value.scope == resp.scope.GetOr("")
    ensures c.Some? ==> c.value.expiresAt == now + resp.expiresIn.GetOr(DefaultExpiresIn)
  {
    match resp.accessToken
    case None => None
    case Some(at) =>
      Some(Credential(at, resp.refreshToken.GetOr(""), now + resp.expiresIn.GetOr(DefaultExpiresIn), resp.scope.GetOr("")))
  }

  /** `store`: replace the whole record (nothing of the previous one survives)
      and save it; a response without an access token raises before anything
      changes. */
  function Store(s: TokenStore, resp: TokenResponse, now: int): (r: Result<TokenStore, GraphError>)
    ensures r.Err? <==> resp.accessToken.None?
    ensures r.Err? ==> r.error.OtherError?
    ensures r.Ok? ==> r.value.record == Normalize(resp, now) && r.value.key == s.key
    ensures r.Ok? ==> r.value == Save(s.(record := Normalize(resp, now)))
  {
    match Normalize(resp, now)
    case None => Err(OtherError("'access_token'"))
    case Some(c) => Ok(Save(s.(record := Some(c))))
  }

  /** `get_access_token`: the record's access token, `None` without one. */
  function AccessToken(s: TokenStore): (r: Option<string>)
    ensures r.Some? <==> s.record.Some?
    ensures r.Some? ==> r.value == s.record.value.accessToken
  {
    if s.record.Some? then Some(s.record.value.accessToken) else None
  }

  /** `get_refresh_token`: the record's refresh token, `None` without one. */
  function RefreshToken(s: TokenStore): (r: Option<string>)
    ensures r.Some? <==> s.record.Some?
    ensures r.Some? ==> r.value == s.record.value.refreshToken
  {
    if s.record.Some? then Some(s.record.value.refreshToken) else None
  }

  /** `is_access_token_expired(buffer)`: expired without a record, otherwise
      from `buffer` seconds before the recorded expiry onwards. */
  function IsAccessTokenExpired(s: TokenStore, now: int, buffer: int): (b: bool)
    ensures s.record.None? ==> b
    ensures s.record.Some? ==> (b <==> now >= s.record.value.expiresAt - buffer)
  {
    match s.record
    case None => true
    case Some(c) => now >= c.expiresAt - buffer
  }

  /** `is_authenticated`: a record whose access token is still fresh, or whose
      refresh token is non-empty. */
  function IsAuthenticated(s: TokenStore, now: int): (b: bool)
    ensures b <==> (s.record.Some? &&
      (now < s.record.value.expiresAt - DefaultBuffer || s.record.value.refreshToken != ""))
  {
    if s.record.None? then false
    else if !IsAccessTokenExpired(s, now, DefaultBuffer) then true
    else RefreshToken(s).value != ""
  }

  /** `clear`: forget the record and delete the token file; the key stays. */
  function Clear(s: TokenStore): (r: TokenStore)
    ensures r.record.None? && r.disk.tokenFile.None?
    ensures r.key == s.key && r.disk.keyFile == s.disk.keyFile
  {
    TokenStore(s.key, None, s.disk.(tokenFile := None))
  }

  /** After `clear` nothing is left: the token reads as expired at any time
      and any buffer, the store is not authenticated, and both getters give
      `None`; clearing twice is clearing once. */
  lemma ClearForgetsEverything(s: TokenStore, now: int, buffer: int)
    ensures IsAccessTokenExpired(Clear(s), now, buffer)
    ensures !IsAuthenticated(Clear(s), now)
    ensures AccessToken(Clear(s)).None? && RefreshToken(Clear(s)).None?
    ensures Clear(Clear(s)) == Clear(s)
  {
  }

  /** A response without a lifetime, stored at `t`, reads as expired from
      `t + 3300` on under the default five-minute buffer, a full five minutes
      before its literal expiry at `t + 3600`. */
  lemma DefaultLifetimeExpiry(s: TokenStore, resp: TokenResponse, t: int, now: int)
    requires resp.accessToken.Some? && resp.expiresIn.None?
    ensures Store(s, resp, t).Ok?
    ensures IsAccessTokenExpired(Store(s, resp, t).value, now, DefaultBuffer) <==> now >= t + 3300
  {
  }

  /** `store` overwrites: what it leaves does not depend on the previous record. */
  lemma StoreOverwrites(s: TokenStore, previous: Option<Credential>, resp: TokenResponse, now: int)
    ensures Store(s, resp, now) == Store(s.(record := previous), resp, now)
  {
  }

  /** A saved record comes back unchanged when the file is loaded again with
      the same key, whatever the process held in memory in between. */
  lemma SaveLoadRoundTrip(s: TokenStore, inMemory: Option<Credential>)
    requires IsFernetKey(s.key) && s.record.Some?
    ensures Load(Save(s).(record := inMemory)).record == s.record
  {
  }

  /** Loading a saved file under another key string gives the record back
      exactly when the two strings decode to the same key bytes, and leaves
      no record otherwise; a tampered file leaves no record under any key.
      Neither case fails. */
  lemma KeyDecidesLoad(s: TokenStore, otherKey: string, inMemory: Option<Credential>)
    requires IsFernetKey(s.key) && s.record.Some?
    ensures var r := Load(Save(s).(key := otherKey, record := inMemory)).record;
      && (r.Some? <==> FernetKey(otherKey) == FernetKey(s.key))
      && (r.Some? ==> r == s.record)
    ensures Load(s.(disk := s.disk.(tokenFile := Some(Tampered)), record := inMemory)).record.None?
  {
  }

  /** A process restart: a store configured with the key that sealed the file
      reads back the record the previous process stored. */
  lemma RestartRecoversRecord(s: TokenStore, resp: TokenResponse, now: int, random: seq<Base64Url.byte>)
    requires IsFernetKey(s.key) && resp.accessToken.Some? && |random| == 32
    ensures var saved := Store(s, resp, now).value;
      Configure(NewStore(saved.disk), s.key, random).record == saved.record
  {
  }
}
