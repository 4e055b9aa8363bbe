/**
 * The decision logic of secret_keeper/cli.py: the status table that
 * reconciles remote and local secret names, name completion, the
 * `OWNER/REPO` check, and which API call the update and delete commands
 * make. Console input is a parameter; the API call a command decides on is
 * returned as an `Action`.
 */
module Cli {
  import opened Wrappers
  import opened Text
  import opened Ordering
  import opened Api

  /** The `Status` column of the status table */
  datatype Status = Both | Local | Remote

  /** One row of the status table; `status` is None if no branch of `create_status` assigned it. */
  datatype Entry = Entry(name: string, status: Option<Status>)

  /** The remote call a command makes, if any */
  datatype Action = NoCall | UpdateCall(name: string, value: string) | DeleteCall(name: string)

  /** Outcome of the batch `update_secret`: the process exits, or the update is called once. */
  datatype Batch = Exit(code: nat) | Call(action: Action)

  /** `Args`: the client, the repository and the local `name -> value` configuration. */
  datatype Args = Args(api: GitHubApi, owner: string, repo: string, config: map<string, string>)

  /** `answer.lower() == "yes"` */
  predicate IsYes(answer: string) {
    Lower(answer) == "yes"
  }

  /** `name.lower().startswith(prefix.lower())` */
  predicate Matches(name: string, prefix: string) {
    StartsWith(Lower(name), Lower(prefix))
  }

  /** A candidate is offered when the prefix is blank, or when it matches case-insensitively. */
  predicate Offered(name: string, prefix: string) {
    Strip(prefix) == [] || Matches(name, prefix)
  }

  /** The name column of a table */
  function Names(table: seq<Entry>): (r: seq<string>)
    ensures |r| == |table| && forall i :: 0 <= i < |table| ==> r[i] == table[i].name
  {
    seq(|table|, i requires 0 <= i < |table| => table[i].name)
  }

  /** The status of a name present in both, only local, or only remote, and nothing else. */
  predicate Tagged(e: Entry, remote: set<string>, local: set<string>) {
    && e.status.Some?
    && (e.status.value == Both <==> e.name in remote && e.name in local)
    && (e.status.value == Local <==> e.name !in remote && e.name in local)
    && (e.status.value == Remote <==> e.name in remote && e.name !in local)
  }

  /** What `create_status` promises: the union of the names, ascending, each once, each tagged. */
  ghost predicate IsStatusTable(table: seq<Entry>, remote: set<string>, local: set<string>) {
    && StrictlyAscending(Names(table))
    && (forall n :: n in Names(table) <==> n in remote || n in local)
    && (forall e :: e in table ==> Tagged(e, remote, local))
  }

  /** The status table is determined by the two name sets. */
  lemma StatusTableUnique(t1: seq<Entry>, t2: seq<Entry>, remote: set<string>, local: set<string>)
    requires IsStatusTable(t1, remote, local) && IsStatusTable(t2, remote, local)
    ensures t1 == t2
  {
    SortedUnique(Names(t1), Names(t2));
    assert |t1| == |Names(t1)| == |Names(t2)| == |t2|;
    forall i | 0 <= i < |t1| ensures t1[i] == t2[i] {
      assert t1[i].name == Names(t1)[i] == Names(t2)[i] == t2[i].name;
      assert t1[i] in t1 && t2[i] in t2;
    }
  }

  /** The list comprehension of `complete_delete` / `complete_update`, order kept. */
  function FilterByPrefix(names: seq<string>, prefix: string): (r: seq<string>)
    ensures forall x :: x in r <==> x in names && Matches(x, prefix)
    ensures StrictlyAscending(names) ==> StrictlyAscending(r)
  {
    if names == [] then []
    else
      var rest := FilterByPrefix(names[1..], prefix);
      assert forall x :: x in names[1..] ==> x in names;
      if Matches(names[0], prefix) then
        assert StrictlyAscending(names) ==> forall j :: 0 <= j < |rest| ==> Less(names[0], rest[j]) by {
          if StrictlyAscending(names) {
            forall j | 0 <= j < |rest| ensures Less(names[0], rest[j]) {
              assert rest[j] in names[1..];
              var k :| 0 <= k < |names| - 1 && names[1..][k] == rest[j];
              assert names[k + 1] == rest[j];
            }
          }
        }
        [names[0]] + rest
      else rest
  }

  /** Body of `complete_delete` / `complete_update` over the candidate names. */
  method Complete(candidates: set<string>, prefix: string) returns (r: seq<string>)
    ensures StrictlyAscending(r)
    ensures forall x :: x in r <==> x in candidates && Offered(x, prefix)
  {
    var names := SortedSet(candidates);
    if Strip(prefix) != [] {
      return FilterByPrefix(names, prefix);
    }
    r := names;
  }

  /**
   * The repository check of `build_args`: `repo` must be non-empty and its
   * stripped form must split on `/` into exactly two (possibly empty) parts;
   * otherwise the process exits with status 1.
   */
  function ParseRepo(repo: string): (r: Result<(string, string), nat>)
    ensures r.Success? <==> repo != [] && Count(Strip(repo), '/') == 1
    ensures r.Failure? ==> r.error == 1
    ensures r.Success? ==> r.value.0 + "/" + r.value.1 == Strip(repo)
    ensures r.Success? ==> '/' !in r.value.0 && '/' !in r.value.1
  {
    var segments := Split(Strip(repo), '/');
    SplitLength(Strip(repo), '/');
    SplitJoin(Strip(repo), '/');
    SplitPartsFree(Strip(repo), '/');
    if repo == [] || |segments| != 2 then Failure(1)
    else
      assert segments[0] in segments && segments[1] in segments;
      assert segments[1..] == [segments[1]];
      Success((segments[0], segments[1]))
  }

  /** Both segments may be empty: `"/"` is accepted. */
  lemma ParseRepoSlashOnly()
    ensures ParseRepo("/") == Success(("", ""))
  {
    assert Strip("/") == "/";
    assert Split("/", '/') == ["", ""];
  }

  /** Splitting at the only separator: the parts before and after it are determined. */
  lemma SlashSplitUnique(a: string, b: string, c: string, d: string)
    requires '/' !in a && '/' !in b && '/' !in c && '/' !in d
    requires a + "/" + b == c + "/" + d
    ensures a == c && b == d
  {
    var s := a + "/" + b;
    if |a| < |c| {
      SlashAfter(a, b);
      assert false;
    } else if |c| < |a| {
      SlashAfter(c, d);
      assert false;
    }
    assert s[..|a|] == a && s[..|c|] == c;
    assert s[|a| + 1..] == b && s[|c| + 1..] == d;
  }

  lemma SlashAfter(a: string, b: string)
    ensures (a + "/" + b)[|a|] == '/'
  {
  }

  /** `OWNER/REPO` round trip: two slash-free segments joined by `/` are split back apart. */
  lemma ParseRepoJoined(owner: string, name: string)
    requires '/' !in owner && '/' !in name
    requires Strip(owner + "/" + name) == owner + "/" + name
    ensures ParseRepo(owner + "/" + name) == Success((owner, name))
  {
    var s := owner + "/" + name;
    SplitLength(s, '/');
    SplitJoin(s, '/');
    SplitPartsFree(s, '/');
    var parts := Split(s, '/');
    if |parts| == 2 {
      assert parts[0] in parts && parts[1] in parts;
      assert parts[1..] == [parts[1]];
      assert Join(parts, '/') == parts[0] + "/" + parts[1];
      SlashSplitUnique(owner, name, parts[0], parts[1]);
    } else {
      CountSeparators(owner, name);
    }
  }

  /** A slash-free owner and name joined by `/` hold exactly one separator. */
  lemma {:induction false} CountSeparators(owner: string, name: string)
    requires '/' !in owner && '/' !in name
    ensures Count(owner + "/" + name, '/') == 1
  {
    if owner == [] {
      assert (owner + "/" + name)[1..] == name;
      CountAbsent(name, '/');
    } else {
      assert (owner + "/" + name)[1..] == owner[1..] + "/" + name;
      CountSeparators(owner[1..], name);
    }
  }

  lemma {:induction false} CountAbsent(s: string, c: char)
    requires c !in s
    ensures Count(s, c) == 0
  {
    if s != [] {
      assert s[0] in s;
      CountAbsent(s[1..], c);
    }
  }

  /** A blank repository string is rejected although it is not empty. */
  lemma ParseRepoBlank(s: string)
    requires s != [] && AllSpace(s)
    ensures ParseRepo(s) == Failure(1)
  {
    StripEmptyIffBlank(s);
  }

  /** Two separators are one too many. */
  lemma ParseRepoTwoSlashes()
    ensures ParseRepo("a/b/c") == Failure(1)
  {
    var s := "a/b/c";
    assert s[0] == 'a' && !IsSpace('a') && s[4] == 'c' && !IsSpace('c');
    assert TrimStart(s) == s && TrimEnd(s) == s;
    CountSeparators("b", "c");
    assert "b" + "/" + "c" == "b/c";
    assert Count("/b/c", '/') == 1 + Count("b/c", '/') by { assert "/b/c"[1..] == "b/c"; }
    assert Count(s, '/') == 2 by { assert s[1..] == "/b/c"; }
  }

  /** Batch `update_secret`: exit 1 without any call when the name is not configured, else one update. */
  function BatchUpdate(config: map<string, string>, secret: string): (b: Batch)
    ensures b.Exit? <==> secret !in config
    ensures b.Exit? ==> b.code == 1
    ensures b.Call? ==> b.action == UpdateCall(secret, config[secret])
  {
    if secret !in config then Exit(1) else Call(UpdateCall(secret, config[secret]))
  }

  /** `GitHubSecretKeeperShell`: the arguments and the last listing of the remote secrets. */
  class Shell {
    const args: Args
    var secrets: map<string, SecretMetadata>

    /** The shell right after a listing of the remote secrets that succeeded. */
    constructor(args: Args, secrets: map<string, SecretMetadata>)
      ensures this.args == args && this.secrets == secrets
    {
      this.args := args;
      this.secrets := secrets;
    }

    /** `refresh_remote_secrets`: replaces the listing, or raises and keeps the old one. */
    method RefreshRemoteSecrets(status: nat, text: string, listed: Option<seq<RawSecret>>)
      returns (err: Option<ApiError>)
      modifies this, args.api
      ensures status == 200 ==> err == None && secrets == IndexByName(if listed.Some? then listed.value else [])
      ensures status != 200 ==>
        && err == Some(ValueError(ListErrorMessage(status, SecretsUrl(args.owner, args.repo), text)))
        && secrets == old(secrets)
      ensures args.api.publicKey == old(args.api.publicKey)
      ensures args.api.sent == old(args.api.sent) + [ListRequest(SecretsUrl(args.owner, args.repo), args.api.Headers())]
    {
      var r := args.api.ListSecrets(args.owner, args.repo, status, text, listed);
      if r.Failure? {
        return Some(r.error);
      }
      secrets := r.value;
      err := None;
    }

    /** `create_status` */
    method CreateStatus() returns (table: seq<Entry>)
      ensures IsStatusTable(table, secrets.Keys, args.config.Keys)
    {
      var allNames := SortedSet(secrets.Keys + args.config.Keys);
      table := [];
      for i := 0 to |allNames|
        invariant |table| == i
        invariant forall k :: 0 <= k < i ==> table[k].name == allNames[k]
        invariant forall k :: 0 <= k < i ==> Tagged(table[k], secrets.Keys, args.config.Keys)
      {
        var name := allNames[i];
        assert name in allNames;
        var entry := Entry(name, None);
        if name in secrets && name in args.config {
          entry := entry.(status := Some(Both));
        }
        if name !in secrets && name in args.config {
          entry := entry.(status := Some(Local));
        }
        if name in secrets && name !in args.config {
          entry := entry.(status := Some(Remote));
        }
        table := table + [entry];
      }
      assert Names(table) == allNames;
    }

    /** `do_status`: refreshes the listing and then builds the table from it. */
    method DoStatus(status: nat, text: string, listed: Option<seq<RawSecret>>)
      returns (r: Result<seq<Entry>, ApiError>)
      modifies this, args.api
      ensures r.Failure? <==> status != 200
      ensures r.Failure? ==>
        && r.error == ValueError(ListErrorMessage(status, SecretsUrl(args.owner, args.repo), text))
        && secrets == old(secrets)
      ensures r.Success? ==> secrets == IndexByName(if listed.Some? then listed.value else [])
      ensures r.Success? ==> IsStatusTable(r.value, secrets.Keys, args.config.Keys)
      ensures args.api.publicKey == old(args.api.publicKey)
      ensures args.api.sent == old(args.api.sent) + [ListRequest(SecretsUrl(args.owner, args.repo), args.api.Headers())]
    {
      var err := RefreshRemoteSecrets(status, text, listed);
      if err.Some? {
        return Failure(err.value);
      }
      var table := CreateStatus();
      r := Success(table);
    }

    /**
     * `do_update`: nothing for a name missing from the configuration; a
     * confirmation for a name already on the remote; no question otherwise.
     */
    method DoUpdate(line: string, answer: string) returns (asked: bool, action: Action)
      ensures asked <==> line in args.config && line in secrets
      ensures action != NoCall <==> line in args.config && (line in secrets ==> IsYes(answer))
      ensures action != NoCall ==> line in args.config && action == UpdateCall(line, args.config[line])
    {
      if line !in args.config {
        return false, NoCall;
      }
      if line in secrets {
        asked := true;
        if Lower(answer) == "yes" {
          action := UpdateCall(line, args.config[line]);
        } else {
          action := NoCall;
        }
      } else {
        asked := false;
        action := UpdateCall(line, args.config[line]);
      }
    }

    /** `do_delete`: a confirmed delete of a name present on the remote, nothing otherwise. */
    method DoDelete(line: string, answer: string) returns (asked: bool, action: Action)
      ensures asked <==> line in secrets
      ensures action != NoCall <==> line in secrets && IsYes(answer)
      ensures action != NoCall ==> action == DeleteCall(line)
    {
      asked := false;
      action := NoCall;
      if line in secrets {
        asked := true;
        if Lower(answer) == "yes" {
          action := DeleteCall(line);
        }
      }
    }

    /** `complete_delete`: completes over the names listed on the remote. */
    method CompleteDelete(prefix: string) returns (names: seq<string>)
      ensures StrictlyAscending(names)
      ensures forall x :: x in names <==> x in secrets && Offered(x, prefix)
    {
      names := Complete(secrets.Keys, prefix);
    }

    /** `complete_update`: completes over the names in the local configuration. */
    method CompleteUpdate(prefix: string) returns (names: seq<string>)
      ensures StrictlyAscending(names)
      ensures forall x :: x in names <==> x in args.config && Offered(x, prefix)
    {
      names := Complete(args.config.Keys, prefix);
    }
  }

  /** `GitHubSecretKeeperShell(args)`: the constructor lists the remote secrets and raises if that fails. */
  method OpenShell(args: Args, status: nat, text: string, listed: Option<seq<RawSecret>>)
    returns (r: Result<Shell, ApiError>)
    modifies args.api
    ensures r.Failure? <==> status != 200
    ensures r.Failure? ==> r.error == ValueError(ListErrorMessage(status, SecretsUrl(args.owner, args.repo), text))
    ensures r.Success? ==>
      && fresh(r.value) && r.value.args == args
      && r.value.secrets == IndexByName(if listed.Some? then listed.value else [])
    ensures args.api.publicKey == old(args.api.publicKey)
    ensures args.api.sent == old(args.api.sent) + [ListRequest(SecretsUrl(args.owner, args.repo), args.api.Headers())]
  {
    var listing := args.api.ListSecrets(args.owner, args.repo, status, text, listed);
    if listing.Failure? {
      return Failure(listing.error);
    }
    var shell := new Shell(args, listing.value);
    r := Success(shell);
  }

  lemma ExpectedStatusTable()
    ensures IsStatusTable([Entry("A", Some(Remote)), Entry("B", Some(Both)), Entry("C", Some(Local))],
                          {"A", "B"}, {"B", "C"})
  {
    var expected := [Entry("A", Some(Remote)), Entry("B", Some(Both)), Entry("C", Some(Local))];
    var names := Names(expected);
    assert names == ["A", "B", "C"];
    assert Less("A", "B") && Less("A", "C") && Less("B", "C");
    assert StrictlyAscending(names);
  }

  /** Remote {A, B} against local {B, C} gives A remote, B both, C local, in that order. */
  method StatusExample() returns (table: seq<Entry>)
    ensures table == [Entry("A", Some(Remote)), Entry("B", Some(Both)), Entry("C", Some(Local))]
  {
    var api := new GitHubApi("token");
    var stamp := DateTime("2024-03-20T08:59:54", Utc);
    var meta := SecretMetadata("A", stamp, stamp);
    var shell := new Shell(Args(api, "owner", "repo", map["B" := "2", "C" := "3"]),
                           map["A" := meta, "B" := meta.(name := "B")]);
    table := shell.CreateStatus();
    assert shell.secrets.Keys == {"A", "B"} && shell.args.config.Keys == {"B", "C"};
    ExpectedStatusTable();
    StatusTableUnique(table, [Entry("A", Some(Remote)), Entry("B", Some(Both)), Entry("C", Some(Local))],
                      {"A", "B"}, {"B", "C"});
  }

  /** With nothing on either side the table is empty. */
  method EmptyStatusExample() returns (table: seq<Entry>)
    ensures table == []
  {
    var api := new GitHubApi("token");
    var shell := new Shell(Args(api, "owner", "repo", map[]), map[]);
    table := shell.CreateStatus();
    SortedUnique(Names(table), []);
  }
}
