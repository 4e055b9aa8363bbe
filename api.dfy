/**
 * The GitHub REST client of secret_keeper/api.py. The network is replaced by
 * parameters: each operation receives the HTTP status code and the decoded
 * JSON body it would have received, and records the request it would have
 * sent in a ghost log. The sealed-box encryption is a function parameter.
 */
module Api {
  import opened Wrappers
  import opened Text

  /** The repository's public key, as returned by the public-key endpoint. */
  datatype PublicKey = PublicKey(keyId: string, key: string)

  /** `tzinfo` of a `datetime`: none, a fixed `+HH:MM` offset, or `timezone.utc`. */
  datatype TzInfo = Naive | Fixed(offset: string) | Utc

  /** A `datetime`: its wall-clock text (everything before the offset) and its `tzinfo`. */
  datatype DateTime = DateTime(wall: string, tz: TzInfo)

  datatype SecretMetadata = SecretMetadata(name: string, createdAt: DateTime, updatedAt: DateTime)

  /** One element of the `secrets` array in the list response, before parsing. */
  datatype RawSecret = RawSecret(name: string, createdAt: string, updatedAt: string)

  /** JSON body of the PUT request */
  datatype PutBody = PutBody(keyId: string, encryptedValue: string)

  /** A request the client sends, with its URL and headers. */
  datatype Request =
    | KeyRequest(url: string, headers: map<string, string>)
    | ListRequest(url: string, headers: map<string, string>)
    | PutRequest(url: string, headers: map<string, string>, body: PutBody)
    | DeleteRequest(url: string, headers: map<string, string>)

  /** The exceptions the client lets escape. */
  datatype ApiError =
    | ValueError(message: string)  // list_secrets on a non-200 status
    | KeyError(key: string)        // the public-key body has no `key_id` / `key`
    | EncryptionError              // decoding the key or building the sealed box raised

  /**
   * `encrypt_secret(public_key, value)`: base64 ciphertext, or None when
   * decoding the key or building the sealed box raised.
   */
  type Sealer = (string, string) -> Option<string>

  const AcceptHeader := "Accept"
  const AuthorizationHeader := "Authorization"
  const VersionHeader := "X-GitHub-Api-Version"
  const BearerPrefix := "Bearer "

  function SecretsUrl(owner: string, repo: string): string {
    "https://api.github.com/repos/" + owner + "/" + repo + "/actions/secrets"
  }

  function PublicKeyUrl(owner: string, repo: string): string {
    SecretsUrl(owner, repo) + "/public-key"
  }

  function SecretUrl(owner: string, repo: string, name: string): string {
    SecretsUrl(owner, repo) + "/" + name
  }

  /** `update_secret` reports success for 201 (created) and 204 (updated) only. */
  predicate UpdateSucceeded(status: nat) {
    status == 201 || status == 204
  }

  /** `delete_secret` reports success for 204 only. */
  predicate DeleteSucceeded(status: nat) {
    status == 204
  }

  /** Statuses a caller might take for success are still reported as failures. */
  lemma WeakSignalling()
    ensures !UpdateSucceeded(200) && !UpdateSucceeded(404) && !UpdateSucceeded(500)
    ensures UpdateSucceeded(201) && UpdateSucceeded(204)
    ensures !DeleteSucceeded(200) && !DeleteSucceeded(404) && DeleteSucceeded(204)
  {
  }

  /** Text of the ValueError that `list_secrets` raises on a non-200 status. */
  function ListErrorMessage(status: nat, url: string, text: string): string {
    "GitHub API returned: \n" + NatToString(status) + "\n" + url + "\n" + " " + text
  }

  /** The error names the status code, the URL and the response text, the text verbatim at the end. */
  lemma ListErrorMessageMentions(status: nat, url: string, text: string)
    ensures Contains(ListErrorMessage(status, url, text), NatToString(status))
    ensures Contains(ListErrorMessage(status, url, text), url)
    ensures EndsWith(ListErrorMessage(status, url, text), text)
  {
    var head := "GitHub API returned: \n";
    var digits := NatToString(status);
    var m := ListErrorMessage(status, url, text);
    assert m == head + digits + ("\n" + url + "\n" + " " + text);
    ContainsMiddle(head, digits, "\n" + url + "\n" + " " + text);
    assert m == (head + digits + "\n") + url + ("\n" + " " + text);
    ContainsMiddle(head + digits + "\n", url, "\n" + " " + text);
    assert m == (head + digits + "\n" + url + "\n" + " ") + text;
  }

  /** The string ends with a `+HH:MM` or `-HH:MM` UTC offset. */
  predicate HasOffsetSuffix(s: string) {
    && |s| >= 6
    && (s[|s| - 6] == '+' || s[|s| - 6] == '-')
    && '0' <= s[|s| - 5] <= '9' && '0' <= s[|s| - 4] <= '9'
    && s[|s| - 3] == ':'
    && '0' <= s[|s| - 2] <= '9' && '0' <= s[|s| - 1] <= '9'
  }

  /** The offset is `+00:00` or `-00:00`. */
  predicate IsZeroOffset(offset: string) {
    |offset| == 6 && offset[1..] == "00:00"
  }

  /**
   * `datetime.fromisoformat`, reduced to separating a trailing offset from the
   * wall clock. A zero offset gives `timezone.utc` itself, as CPython's
   * `timezone(timedelta(0))` does.
   */
  function FromIsoFormat(s: string): (d: DateTime)
    ensures StartsWith(s, d.wall)
    ensures d.tz != Naive <==> HasOffsetSuffix(s)
    ensures d.tz == Utc <==> HasOffsetSuffix(s) && IsZeroOffset(s[|s| - 6..])
  {
    if !HasOffsetSuffix(s) then DateTime(s, Naive)
    else if IsZeroOffset(s[|s| - 6..]) then DateTime(s[..|s| - 6], Utc)
    else DateTime(s[..|s| - 6], Fixed(s[|s| - 6..]))
  }

  /**
   * `GitHubAPI.parse_datetime`: a trailing run of `Z` becomes `+00:00`, and the
   * parsed value's tzinfo is then replaced (not converted) by UTC.
   */
  function ParseDatetime(s: string): (d: DateTime)
    ensures d.tz == Utc
    ensures StartsWith(s, d.wall)
  {
    var t := if EndsWith(s, "Z") then RStrip(s, 'Z') + "+00:00" else s;
    var parsed := FromIsoFormat(t);
    assert EndsWith(s, "Z") ==> parsed.wall == RStrip(s, 'Z');
    parsed.(tz := Utc)
  }

  /** One or more trailing `Z` all go: the wall clock is what precedes them. */
  lemma ParseDatetimeZulu(w: string, n: nat)
    requires n >= 1 && !EndsWith(w, "Z")
    ensures ParseDatetime(w + Repeat('Z', n)) == DateTime(w, Utc)
  {
    var s := w + Repeat('Z', n);
    assert s[|s| - 1] == 'Z' && EndsWith(s, "Z");
    assert w == [] || w[|w| - 1] != 'Z' by {
      if w != [] { assert w[|w| - 1..] == [w[|w| - 1]]; }
    }
    RStripRepeat(w, 'Z', n);
    var t := w + "+00:00";
    assert t[..|t| - 6] == w && t[|t| - 6..] == "+00:00";
    assert HasOffsetSuffix(t) && IsZeroOffset(t[|t| - 6..]);
    assert FromIsoFormat(t) == DateTime(w, Utc);
  }

  /** An explicit offset is discarded, not applied: the wall clock is kept and tagged UTC. */
  lemma ParseDatetimeDiscardsOffset(w: string, offset: string)
    requires |offset| == 6 && HasOffsetSuffix(offset)
    ensures ParseDatetime(w + offset) == DateTime(w, Utc)
  {
  }

  /** `parse_datetime("2024-03-20T08:59:54Z")` equals `fromisoformat` of the same instant written with `+00:00`. */
  lemma ParseDatetimeExample()
    ensures ParseDatetime("2024-03-20T08:59:54Z") == DateTime("2024-03-20T08:59:54", Utc)
    ensures ParseDatetime("2024-03-20T08:59:54Z") == FromIsoFormat("2024-03-20T08:59:54+00:00")
  {
    ParseDatetimeZulu("2024-03-20T08:59:54", 1);
    assert "2024-03-20T08:59:54Z" == "2024-03-20T08:59:54" + Repeat('Z', 1);
    var t := "2024-03-20T08:59:54+00:00";
    assert t[..|t| - 6] == "2024-03-20T08:59:54" && t[|t| - 6..] == "+00:00";
  }

  function ToMetadata(raw: RawSecret): SecretMetadata {
    SecretMetadata(raw.name, ParseDatetime(raw.createdAt), ParseDatetime(raw.updatedAt))
  }

  /** The dictionary `list_secrets` builds: entries in order, a later name overwriting an earlier one. */
  function IndexByName(entries: seq<RawSecret>): map<string, SecretMetadata> {
    if entries == [] then map[]
    else
      var last := entries[|entries| - 1];
      IndexByName(entries[..|entries| - 1])[last.name := ToMetadata(last)]
  }

  /** The keys are exactly the names in the response. */
  lemma {:induction false} IndexByNameKeys(entries: seq<RawSecret>)
    ensures forall k :: k in IndexByName(entries) <==> exists i :: 0 <= i < |entries| && entries[i].name == k
  {
    if entries != [] {
      var init := entries[..|entries| - 1];
      IndexByNameKeys(init);
      forall k ensures k in IndexByName(entries) <==> exists i :: 0 <= i < |entries| && entries[i].name == k {
        if k in IndexByName(init) {
          var i :| 0 <= i < |init| && init[i].name == k;
          assert entries[i].name == k;
        }
        if exists i :: 0 <= i < |entries| && entries[i].name == k {
          var i :| 0 <= i < |entries| && entries[i].name == k;
          if i < |init| { assert init[i].name == k; }
        }
      }
    }
  }

  /** Every value's `.name` equals its key. */
  lemma {:induction false} IndexByNameSelfNamed(entries: seq<RawSecret>)
    ensures forall k :: k in IndexByName(entries) ==> IndexByName(entries)[k].name == k
  {
    if entries != [] {
      IndexByNameSelfNamed(entries[..|entries| - 1]);
    }
  }

  /** A name maps to the metadata of its last occurrence in the response. */
  lemma {:induction false} IndexByNameLastWins(entries: seq<RawSecret>, i: nat)
    requires i < |entries|
    requires forall j :: i < j < |entries| ==> entries[j].name != entries[i].name
    ensures entries[i].name in IndexByName(entries)
    ensures IndexByName(entries)[entries[i].name] == ToMetadata(entries[i])
  {
    if i < |entries| - 1 {
      var init := entries[..|entries| - 1];
      assert init[i] == entries[i];
      IndexByNameLastWins(init, i);
    }
  }

  /** Number of GET requests to the public-key endpoint in a request log */
  function KeyFetchCount(log: seq<Request>): nat {
    if log == [] then 0
    else KeyFetchCount(log[..|log| - 1]) + (if log[|log| - 1].KeyRequest? then 1 else 0)
  }

  lemma {:induction false} KeyFetchCountAppend(log: seq<Request>, more: seq<Request>)
    ensures KeyFetchCount(log + more) == KeyFetchCount(log) + KeyFetchCount(more)
    decreases |more|
  {
    if more == [] {
      assert log + more == log;
    } else {
      var init := more[..|more| - 1];
      assert (log + more)[..|log + more| - 1] == log + init;
      assert (log + more)[|log + more| - 1] == more[|more| - 1];
      KeyFetchCountAppend(log, init);
    }
  }

  /** `GitHubAPI`: a token and a public key fetched lazily and then kept. */
  class GitHubApi {
    const accessToken: string
    var publicKey: Option<PublicKey>
    /** Every request this instance has sent, oldest first. */
    ghost var sent: seq<Request>

    constructor(accessToken: string)
      ensures this.accessToken == accessToken
      ensures publicKey == None && sent == []
    {
      this.accessToken := accessToken;
      publicKey := None;
      sent := [];
    }

    /** Number of public-key fetches so far */
    ghost function KeyFetches(): nat
      reads this
    {
      KeyFetchCount(sent)
    }

    /** `headers()`: the media type, the bearer token and the pinned API version, nothing else. */
    function Headers(): (h: map<string, string>)
      ensures h.Keys == {AcceptHeader, AuthorizationHeader, VersionHeader} && |h| == 3
      ensures h[AcceptHeader] == "application/vnd.github+json"
      ensures StartsWith(h[AuthorizationHeader], BearerPrefix)
      ensures h[AuthorizationHeader][|BearerPrefix|..] == accessToken
      ensures h[VersionHeader] == "2022-11-28"
    {
      map[AcceptHeader := "application/vnd.github+json",
          AuthorizationHeader := BearerPrefix + accessToken,
          VersionHeader := "2022-11-28"]
    }

    /** `_get_public_key`: the GET's status is not checked; a body without the fields raises KeyError. */
    method GetPublicKey(owner: string, repo: string, response: Option<PublicKey>)
      returns (r: Result<PublicKey, ApiError>)
      modifies this`sent
      ensures sent == old(sent) + [KeyRequest(PublicKeyUrl(owner, repo), Headers())]
      ensures r == if response.Some? then Success(response.value) else Failure(KeyError("key_id"))
    {
      sent := sent + [KeyRequest(PublicKeyUrl(owner, repo), Headers())];
      if response.Some? {
        r := Success(response.value);
      } else {
        r := Failure(KeyError("key_id"));
      }
    }

    /**
     * `list_secrets`: a ValueError on any status but 200; otherwise the entries
     * of `secrets` (absent means empty) indexed by name.
     */
    method ListSecrets(owner: string, repo: string, status: nat, text: string, secrets: Option<seq<RawSecret>>)
      returns (r: Result<map<string, SecretMetadata>, ApiError>)
      modifies this`sent
      ensures sent == old(sent) + [ListRequest(SecretsUrl(owner, repo), Headers())]
      ensures status != 200 ==> r == Failure(ValueError(ListErrorMessage(status, SecretsUrl(owner, repo), text)))
      ensures status == 200 ==> r == Success(IndexByName(if secrets.Some? then secrets.value else []))
    {
      var url := SecretsUrl(owner, repo);
      sent := sent + [ListRequest(url, Headers())];
      if status != 200 {
        return Failure(ValueError(ListErrorMessage(status, url, text)));
      }
      var entries := if secrets.Some? then secrets.value else [];
      var output: map<string, SecretMetadata> := map[];
      for i := 0 to |entries|
        invariant output == IndexByName(entries[..i])
      {
        var secret := entries[i];
        output := output[secret.name := ToMetadata(secret)];
        assert entries[..i + 1][..i] == entries[..i];
      }
      assert entries[..|entries|] == entries;
      r := Success(output);
    }

    /**
     * `update_secret`: fetches the public key if none is cached, seals the value
     * with the cached key, and PUTs it under that same key's id.
     */
    method UpdateSecret(owner: string, repo: string, name: string, value: string,
                        keyResponse: Option<PublicKey>, seal: Sealer, status: nat)
      returns (r: Result<bool, ApiError>)
      modifies this`publicKey, this`sent
      ensures old(publicKey).Some? ==> publicKey == old(publicKey)
      ensures old(publicKey).None? ==> publicKey == keyResponse
      ensures KeyFetches() == old(KeyFetches()) + (if old(publicKey).None? then 1 else 0)
      ensures publicKey.None? ==>
        && r == Failure(KeyError("key_id"))
        && sent == old(sent) + [KeyRequest(PublicKeyUrl(owner, repo), Headers())]
      ensures publicKey.Some? ==>
        var fetch := if old(publicKey).None? then [KeyRequest(PublicKeyUrl(owner, repo), Headers())] else [];
        var sealed := seal(publicKey.value.key, value);
        if sealed.None? then
          r == Failure(EncryptionError) && sent == old(sent) + fetch
        else
          && r == Success(UpdateSucceeded(status))
          && sent == old(sent) + fetch
                     + [PutRequest(SecretUrl(owner, repo, name), Headers(), PutBody(publicKey.value.keyId, sealed.value))]
    {
      ghost var before := sent;
      if publicKey.None? {
        var fetched := GetPublicKey(owner, repo, keyResponse);
        KeyFetchCountAppend(before, [KeyRequest(PublicKeyUrl(owner, repo), Headers())]);
        if fetched.Failure? {
          return Failure(fetched.error);
        }
        publicKey := Some(fetched.value);
      }
      var key := publicKey.value;
      var encrypted := seal(key.key, value);
      if encrypted.None? {
        return Failure(EncryptionError);
      }
      ghost var afterFetch := sent;
      sent := sent + [PutRequest(SecretUrl(owner, repo, name), Headers(), PutBody(key.keyId, encrypted.value))];
      KeyFetchCountAppend(afterFetch, [PutRequest(SecretUrl(owner, repo, name), Headers(), PutBody(key.keyId, encrypted.value))]);
      r := Success(UpdateSucceeded(status));
    }

    /** `delete_secret`: true exactly for status 204; the cached key is untouched. */
    method DeleteSecret(owner: string, repo: string, name: string, status: nat) returns (ok: bool)
      modifies this`sent
      ensures ok == DeleteSucceeded(status)
      ensures sent == old(sent) + [DeleteRequest(SecretUrl(owner, repo, name), Headers())]
      ensures KeyFetches() == old(KeyFetches())
    {
      ghost var before := sent;
      sent := sent + [DeleteRequest(SecretUrl(owner, repo, name), Headers())];
      KeyFetchCountAppend(before, [DeleteRequest(SecretUrl(owner, repo, name), Headers())]);
      ok := status == 204;
    }
  }

  /**
   * Two updates on a fresh client with a well-formed key fetch the key once,
   * and both PUTs carry that key's id, whatever the endpoint would return by
   * the second update (`laterKey`): the cached key wins.
   */
  method UpdateTwice(token: string, owner: string, repo: string, key: PublicKey, laterKey: Option<PublicKey>,
                     seal: Sealer, first: string, firstValue: string, second: string, secondValue: string,
                     firstStatus: nat, secondStatus: nat)
    returns (api: GitHubApi)
    requires seal(key.key, firstValue).Some? && seal(key.key, secondValue).Some?
    ensures api.KeyFetches() == 1
    ensures api.publicKey == Some(key)
    ensures |api.sent| == 3 && api.sent[1].PutRequest? && api.sent[2].PutRequest?
    ensures api.sent[1].body.keyId == key.keyId && api.sent[2].body.keyId == key.keyId
  {
    api := new GitHubApi(token);
    var r1 := api.UpdateSecret(owner, repo, first, firstValue, Some(key), seal, firstStatus);
    var r2 := api.UpdateSecret(owner, repo, second, secondValue, laterKey, seal, secondStatus);
    assert KeyFetchCount([]) == 0;
  }
}
