# secret_keeper in Dafny

A model of the core of `github-secret-keeper`, a small tool that keeps the
GitHub Actions secrets of one repository in step with a local `.env` file.

- `Api` (`api.dfy`) models `GitHubAPI`, the REST client. It is a class with
  the access token and a public key fetched lazily (`publicKey: Option<PublicKey>`,
  `None` at construction, fetched by the first `UpdateSecret`, then reused).
  The network is replaced by parameters. Each operation receives the status
  code and the decoded JSON body it would have received. It appends the
  request it would have sent (URL, headers, body) to a ghost log `sent`.
  The number of public-key fetches is counted in that log. `encrypt_secret`
  (a libsodium sealed box) is a function parameter `seal`; `None` means
  decoding the key or building the sealed box raised. `parse_datetime`, the status-code rules of
  update/delete, the error text of `list_secrets` and the name-keyed index
  that `list_secrets` builds are functions with lemmas.
- `Cli` (`cli.dfy`) models the interactive shell `GitHubSecretKeeperShell`.
  It is a class with the frozen `Args` and the mutable listing `secrets`.
  It also holds the `OWNER/REPO` check of `build_args` and the batch
  `update_secret`. Console answers are parameters. The API call a command
  decides on is returned as an `Action` (`NoCall`, `UpdateCall`, `DeleteCall`).
- `Text` (`text.dfy`) holds the Python `str` operations the two files rely
  on: `strip()`, `lower()` (ASCII), `startswith`/`endswith`, `split("/")`,
  `rstrip("Z")`, and decimal rendering of an `int` in an f-string.
- `Ordering` (`ordering.dfy`) holds Python's order on `str` (code point by
  code point) and `sorted(...)` of a set of names.
- `Wrappers` (`wrappers.dfy`) holds `Option` and `Result`. A raised
  exception is a `Failure`.

## Model

| member | source | states |
|---|---|---|
| `Api.GitHubApi.constructor` | secret_keeper/api.py:46-48 | a new client keeps the token, has no public key cached and has sent nothing |
| `Api.GitHubApi.Headers` | secret_keeper/api.py:50-55 | exactly three headers: `Accept: application/vnd.github+json`, `Authorization` = `Bearer ` followed by the token (which can be read back), `X-GitHub-Api-Version: 2022-11-28` |
| `Api.GitHubApi.GetPublicKey` | secret_keeper/api.py:57-61 | one GET to `.../actions/secrets/public-key`; the status is not checked; a body without the key fields raises KeyError |
| `Api.GitHubApi.ListSecrets` | secret_keeper/api.py:63-85 | one GET to `.../actions/secrets`; any status other than 200 raises a ValueError with the message built from status, URL and text, and no map; on 200 the result is `IndexByName` of the `secrets` entries (an absent field counts as empty); the loop keeps `output == IndexByName(entries[..i])` |
| `Api.ListErrorMessageMentions` | secret_keeper/api.py:66-71 | the error message contains the decimal status code and the URL, and ends with the response text unchanged |
| `Text.NatToStringValue` | secret_keeper/api.py:69 | the decimal rendering of the status code in the message reads back as that status code and, for a positive code, has no leading zero, as `str(int)` gives |
| `Api.IndexByNameKeys` | secret_keeper/api.py:74-85 | the keys of the returned map are exactly the names of the entries |
| `Api.IndexByNameSelfNamed` | secret_keeper/api.py:76-83 | every value's `name` equals its key |
| `Api.IndexByNameLastWins` | secret_keeper/api.py:75-83 | a name maps to the metadata of its last occurrence: a later duplicate overwrites an earlier one |
| `Api.FromIsoFormat` | secret_keeper/api.py:92 | the wall clock is a prefix of the text; the value is timezone-aware exactly when the text ends in `+HH:MM` or `-HH:MM`, and its tzinfo is `timezone.utc` exactly when that offset is `±00:00` |
| `Api.ParseDatetime` | secret_keeper/api.py:87-94 | the result is always tagged UTC, and its wall clock is a prefix of the input |
| `Api.ParseDatetimeZulu` | secret_keeper/api.py:89-90 | any run of one or more trailing `Z` is removed as a whole (it is `rstrip`), and the wall clock is what precedes it |
| `Text.RStripRepeat` | secret_keeper/api.py:90 | `rstrip(c)` removes exactly the run of `c` appended to a string that does not end in `c` |
| `Api.ParseDatetimeDiscardsOffset` | secret_keeper/api.py:92-93 | an explicit `±HH:MM` offset is replaced by UTC, not converted: the wall clock is kept unchanged |
| `Api.ParseDatetimeExample` | tests/test_api.py:7-11 | `"2024-03-20T08:59:54Z"` parses to wall clock `2024-03-20T08:59:54` in UTC, and equals what `fromisoformat` gives for the `+00:00` form of the same instant |
| `Api.GitHubApi.UpdateSecret` | secret_keeper/api.py:96-108 | the key is fetched only if none is cached and is then kept; a failed fetch caches nothing and sends no PUT; otherwise the value is sealed with the cached key and one PUT is sent whose body carries that same key's `key_id`; the result is true iff the PUT status is 201 or 204 |
| `Api.WeakSignalling` | secret_keeper/api.py:108 | update reports false for 200, 404 and 500 and true for 201 and 204; delete reports true for 204 only, false for 200 and 404 |
| `Api.GitHubApi.DeleteSecret` | secret_keeper/api.py:110-115 | one DELETE to the secret's URL; true iff the status is 204; no key fetch |
| `Api.KeyFetchCountAppend` | secret_keeper/api.py:97-98 | public-key fetches in a request log add up over appended requests |
| `Api.UpdateTwice` | secret_keeper/api.py:97-102 | two updates on a fresh client fetch the key exactly once, and both PUTs carry the first fetched key's id whatever the endpoint would return by the second update |
| `Ordering.SortedSet` | secret_keeper/cli.py:117-119 | `sorted` of a set of names: strictly ascending in Python's string order, with exactly the set's elements, one entry each |
| `Ordering.Insert` | secret_keeper/cli.py:117-119 | inserting a new name into a strictly ascending list keeps it strictly ascending and adds exactly that name |
| `Ordering.SortedUnique` | secret_keeper/cli.py:117-119 | a strictly ascending list is determined by its elements, so the sorted order of the names is unique |
| `Ordering.LessTransitive` | secret_keeper/cli.py:117 | Python's string order is transitive |
| `Ordering.LessTotal` | secret_keeper/cli.py:117 | any two different strings are ordered one way or the other |
| `Cli.Shell.CreateStatus` | secret_keeper/cli.py:116-132 | the table's names are exactly the union of remote and local names, strictly ascending, one row each; each row is `both` iff the name is in both, `local` iff only in the config, `remote` iff only on the remote, so exactly one branch assigns a status |
| `Cli.StatusTableUnique` | secret_keeper/cli.py:116-132 | two tables meeting that description for the same name sets are equal |
| `Cli.StatusExample` | secret_keeper/cli.py:116-132 | remote {A, B} against local {B, C} gives `[A remote, B both, C local]` |
| `Cli.EmptyStatusExample` | secret_keeper/cli.py:116-132 | no names on either side give an empty table |
| `Cli.Shell.constructor` | secret_keeper/cli.py:42-46 | the shell holds the arguments and the listing that `__init__` obtained |
| `Cli.OpenShell` | secret_keeper/cli.py:42-49 | creating the shell fails exactly when listing the secrets does (status other than 200), with list_secrets' ValueError; otherwise the shell holds that listing; the client sends exactly one list request and keeps its cached key |
| `Cli.Shell.RefreshRemoteSecrets` | secret_keeper/cli.py:48-49 | on status 200 the listing is replaced by the new index; otherwise list_secrets' ValueError escapes and the old listing stays; the client sends exactly one list request and keeps its cached key |
| `Cli.Shell.DoStatus` | secret_keeper/cli.py:51-56 | fails exactly when the refresh fails, with its ValueError and the old listing kept; otherwise the listing becomes the refreshed index and the table describes it against the config; one list request is sent and the cached key is kept |
| `Cli.Shell.DoUpdate` | secret_keeper/cli.py:58-80 | a name missing from the config never causes a call; the user is asked only when the name is already remote, and then the update happens iff the answer lowercased is `yes`; a local-only name is updated without asking; the update sends the config's value |
| `Cli.Shell.DoDelete` | secret_keeper/cli.py:82-96 | the user is asked iff the name is remote; the delete is called iff the name is remote and the answer lowercased is `yes`; otherwise nothing is called |
| `Cli.FilterByPrefix` | secret_keeper/cli.py:103 | keeps exactly the names whose lowercase form starts with the lowercase prefix; a strictly ascending input gives a strictly ascending result, which with the membership fixes the output on the sorted lists it is given |
| `Cli.Complete` | secret_keeper/cli.py:99-105 | strictly ascending candidates; with a blank prefix all candidates, otherwise exactly those matching the unstripped prefix case-insensitively |
| `Text.StripEmptyIffBlank` | secret_keeper/cli.py:102 | `prefix.strip()` is empty exactly when every character of the prefix is whitespace |
| `Text.LowerIdempotent` | secret_keeper/cli.py:103 | lower-casing twice is lower-casing once, so a prefix given in lower case matches the same names |
| `Cli.Shell.CompleteDelete` | secret_keeper/cli.py:98-105 | completes over the remote names: ascending, all of them for a blank prefix, the case-insensitive matches otherwise |
| `Cli.Shell.CompleteUpdate` | secret_keeper/cli.py:107-114 | completes over the local config names, with the same rule |
| `Cli.ParseRepo` | secret_keeper/cli.py:144-151 | accepted iff the string is non-empty and its stripped form holds exactly one `/`; then owner + `/` + repo is the stripped string and neither part contains `/`; otherwise exit status 1 |
| `Text.SplitLength` | secret_keeper/cli.py:145-146 | `split("/")` yields one more part than there are separators |
| `Text.SplitJoin` | secret_keeper/cli.py:145 | joining the parts of `split` with the separator gives back the string |
| `Text.SplitPartsFree` | secret_keeper/cli.py:145 | no part of `split` contains the separator |
| `Cli.ParseRepoJoined` | secret_keeper/cli.py:144-151 | round trip: an owner and a name without `/`, joined by `/` with no surrounding whitespace, are accepted and split back into that owner and that name |
| `Cli.ParseRepoSlashOnly` | secret_keeper/cli.py:145-151 | `"/"` is accepted with an empty owner and an empty repository name |
| `Cli.ParseRepoBlank` | secret_keeper/cli.py:145-150 | a blank but non-empty string is rejected with status 1 |
| `Cli.ParseRepoTwoSlashes` | secret_keeper/cli.py:145-150 | `"a/b/c"` is rejected with status 1 |
| `Cli.BatchUpdate` | secret_keeper/cli.py:162-172 | exit status 1 and no call when the secret is absent from the config; otherwise exactly one update call with the config's value |

## Left out

- `encrypt_secret` (PyNaCl sealed box with a random ephemeral key, then base64) is a function parameter `seal`, not modelled. Its output is therefore not fixed by the model, and nothing is said about ciphertext length or randomness.
- `Cli.Args.config` values are strings. dotenv's `None` for a key written without `=` is not modelled. With it, `do_update` or the batch `update_secret` would make `update_secret` fetch and cache the public key and then raise AttributeError in `encrypt_secret` before any PUT. So `Cli.Shell.DoUpdate` and `Cli.BatchUpdate` always carry a string value.
- HTTP (`requests.get/put/delete`), `json.loads` and the `key_id`/`key`/`name`/`created_at`/`updated_at` lookups are replaced by parameters. These are the status code, the response text and the decoded body. A list entry missing a field, or a body that is not JSON, is not modelled. For the public key, any such failure is the single `KeyError` case.
- `Api.FromIsoFormat`: `datetime.fromisoformat` is modelled only as splitting off a trailing `+HH:MM`/`-HH:MM` offset (a zero offset giving `timezone.utc`). Dates are not validated (no ValueError path), other offset forms are not recognised, and date/time fields are not parsed. So the `T` and space separators are not identified, and the test's space-separated right-hand side is stated with `T`. Aware values are compared by wall clock and tzinfo, not by instant.
- `Text.Lower`: ASCII case folding only; Unicode `str.lower()` is not modelled.
- `Cli.Shell.DoUpdate`, `Cli.Shell.DoDelete`, `Cli.BatchUpdate`: return the call they decide on instead of performing it. The calls themselves are modelled by `Api.GitHubApi.UpdateSecret` and `Api.GitHubApi.DeleteSecret`. The printed messages are not modelled.
- `Cli.FilterByPrefix`: on an unsorted input list its contract fixes membership but not order; the source only ever filters sorted lists.
- `Cli.Shell.CompleteDelete`, `Cli.Shell.CompleteUpdate`: only the `text` argument of the readline completer is modelled. `line`, `begidx` and `endidx` are unused by the source.
- The token lookup in `os.environ` (`create_api`, `stop_for_invalid_api`), `os.path.exists(envfile)` and `dotenv_values(".env")` are not modelled. Note that `build_args` loads `.env` rather than the given file. These are I/O; `Args.config` is a parameter.
- `print`, `input`, `tabulate`, the `cmd.Cmd` loop (`emptyline`, `do_EOF`), `argparse` and `main` are console glue. `sys.exit(1)` becomes an `Exit(1)` / `Failure(1)` value.
- setup.py and the tests' fixtures are packaging and environment setup.
