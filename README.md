# To Do Overs session controller: a Dafny model

This project models the session controller of the Habitica "To Do Overs" tool.
That controller is the class `ToDoOversData` in
`to_do_overs/app_functions/to_do_overs_data.py`. It logs a user in against the
Habitica v3 API, either with a password or with a stored API token. It creates
and edits to-do tasks. It also synchronises the user's tags into the local
`Tags` table.

- `lists.dfy`, module `Lists`: Python's `list.remove` and the facts the tag
  loop needs about lists with no duplicate values.
- `store.dfy`, module `Store`: the `Users` and `Tags` tables as maps keyed by
  user id and tag id (class `Database`). It also holds the functional
  specification of tag reconciliation (`UpsertAll`, `Reconcile`) and the
  lemmas about it: the user ends up owning exactly the remote ids, every
  remote tag is stored with this user as owner, only leftovers are deleted,
  and a second run changes nothing.
- `api.dfy`, module `Api`: what the controller receives (a status code plus
  the `data` member of the JSON body) and what it sends (the login form and
  the task form).
- `session.dfy`, module `Session`: the class `ToDoOversData`, whose fields
  are the session fields. Its methods are `Login`, `LoginApiKey`,
  `CreateTask`, `EditTask` and `GetUserTags`. Each one takes the HTTP
  response as a parameter, so no network call appears. `GetUserTags` runs
  the source's three loops in the same order: it collects the owned ids,
  upserts the remote tags while crossing ids off the working list, and
  deletes the ids that are left. Each loop is a method of its own, and its
  contract is tied to `Reconcile`.

Three behaviours of the code that a caller might not expect:

- `edit_task` does not check that `task_id` is non-empty. It sends the PUT to
  `tasks/` followed by whatever id the session holds. `EditTask` has no such
  precondition and returns the id it targeted.
- A tag listing that succeeds with an empty `data` array returns failure and
  deletes nothing, even when the user owns local tags. `GetUserTags` models exactly
  this.
- `login_api_key` does not check that an id and a token are present.
  `LoginApiKey` has no precondition either.

## Model

| member | source | states |
|---|---|---|
| `Lists.RemoveFirst` | to_do_overs/app_functions/to_do_overs_data.py:255-256 | `list.remove(x)` on a list that contains `x` drops exactly one occurrence: the length falls by one and the multiset loses one `x` |
| `Lists.RemoveFirstDistinct` | to_do_overs/app_functions/to_do_overs_data.py:255-256 | on the working list of distinct ids, removing an id keeps it duplicate-free and removes exactly that id from its elements |
| `Lists.RemoveFirstAt` | to_do_overs/app_functions/to_do_overs_data.py:255-256 | `list.remove(x)` cuts out the first occurrence of `x` and keeps every other element in order |
| `Store.UpsertAll` | to_do_overs/app_functions/to_do_overs_data.py:244-254 | the upsert pass adds exactly the remote ids to the table's keys and no other key |
| `Store.UpsertAllKeepsOthers` | to_do_overs/app_functions/to_do_overs_data.py:248-254 | a row whose id the listing does not name keeps its value through the upsert pass, since `update_or_create` is keyed by tag id |
| `Store.UpsertAllAt` | to_do_overs/app_functions/to_do_overs_data.py:244-254 | after the upsert pass every remote id is owned by this user, whoever owned it before, and holds the encoded name of the last remote tag with that id |
| `Store.LastOccurrenceExists` | to_do_overs/app_functions/to_do_overs_data.py:244-254 | every id in the listing has a last occurrence, the upsert that decides its stored text |
| `Store.ReconcileOwnsExactlyRemote` | to_do_overs/app_functions/to_do_overs_data.py:237-260 | after reconciliation the set of tag ids owned by the user equals the set of ids in the remote listing |
| `Store.ReconcileStoresRemote` | to_do_overs/app_functions/to_do_overs_data.py:244-256 | every remote tag is present afterwards with this user as owner and the encoded name of its last occurrence as text, so a local id that is also remote is never deleted |
| `Store.ReconcileDeletesOnlyLeftovers` | to_do_overs/app_functions/to_do_overs_data.py:255-260 | for an id the listing does not name: it survives iff it existed and belonged to another user, and a survivor keeps its row unchanged |
| `Store.ReconcileIdempotent` | to_do_overs/app_functions/to_do_overs_data.py:237-260 | reconciling a second time with the same listing leaves the table as the first run left it |
| `Store.ReconcileExample` | to_do_overs/app_functions/to_do_overs_data.py:237-260 | the user owns "2" and "3" and the service lists "1" (home) and "2" (work); afterwards the table holds exactly "1" and "2", both owned by the user with the new texts, and "3" is deleted |
| `Session.ToDoOversData.constructor` | to_do_overs/app_functions/to_do_overs_data.py:38-52 | a new session is anonymous: empty strings, no tags, `task_days` 0, `return_code` 0 |
| `Session.ToDoOversData.Login` | to_do_overs/app_functions/to_do_overs_data.py:54-85 | sends the session's username with the password; `return_code` always becomes the status; on 200 it returns true, takes id, encrypted token and name from the reply, creates or overwrites exactly the `Users` row of that id, and logs in; otherwise it returns false and changes nothing else |
| `Session.ToDoOversData.LoginApiKey` | to_do_overs/app_functions/to_do_overs_data.py:87-113 | `return_code` always becomes the status; on 200 it returns true, takes the profile name, creates or overwrites the `Users` row of the session's id, and logs in; otherwise it returns false and leaves `logged_in`, the username and `Users` unchanged |
| `Session.ToDoOversData.CreateTask` | to_do_overs/app_functions/to_do_overs_data.py:115-168 | the form carries a due date (now plus `task_days` days) iff `task_days > 0` and otherwise the session's task fields with type "todo"; it returns true iff the status is 201, and `task_id` takes the reply's id exactly then |
| `Session.ToDoOversData.EditTask` | to_do_overs/app_functions/to_do_overs_data.py:170-210 | targets the current `task_id`; same due-date rule, no type field; it returns true iff the status is 200, and `task_id` takes the reply's id exactly then |
| `Session.ToDoOversData.GetUserTags` | to_do_overs/app_functions/to_do_overs_data.py:212-264 | `return_code` always becomes the status; on 200 with a non-empty listing it returns the listing and the `Tags` table becomes `Reconcile` of the old table; on any other status, or an empty listing, it returns failure and the table is unchanged |
| `Session.CurrentTagIds` | to_do_overs/app_functions/to_do_overs_data.py:237-240 | the append loop yields each id of a row owned by the user exactly once |
| `Session.UpsertRemoteTags` | to_do_overs/app_functions/to_do_overs_data.py:243-256 | the upsert loop leaves the table equal to `UpsertAll` of the old one, and the working list equal to the old ids minus the remote ids, still duplicate-free |
| `Session.DeleteTags` | to_do_overs/app_functions/to_do_overs_data.py:258-260 | the deletion loop removes exactly the listed ids from the table, by key |

## Left out

- The HTTP requests, URLs and headers (lines 63-66, 93-99, 121-127, 133-162, 176-178, 184-203, 218-230) are not modelled. Each response is a method parameter: a status code and the `data` member of the JSON body. The reply bodies are taken as well formed. A missing JSON key, which raises in the source, is not modelled.
- `encrypt_text`, `decrypt_text` and `CIPHER_FILE` live in `cipher_functions`, which is not part of this model. `Login` takes the cipher as a function parameter `encrypt`. The decryptions feed only request headers, so they are left out, and so is the `cipher_file_path` argument. The model does not capture a failing decryption: in `login_api_key` (line 95), `create_task` (lines 123-126), `edit_task` (line 177) and `get_user_tags` (lines 220-223) `decrypt_text` runs before `return_code` is assigned, so if it raises, the method ends without recording a status. The models of these methods assume every call reaches a response, which is why they promise `returnCode == reply.status`.
- Session.ToDoOversData.CreateTask: does not model the value of the due date, because it reads the wall clock (`datetime.now()`, `timedelta`, `isoformat()`). The form records only whether a date is present and the day offset `task_days` it is computed from.
- Session.ToDoOversData.EditTask: does not model the value of the due date, for the same reason as task creation.
- The `.encode('utf-8')` and `'unicode_escape'` conversions of ids and tag names (lines 246, 249, 252) are left out. Ids are plain strings, and the stored tag text is `encode(name)` for a function parameter `encode`. The str-versus-bytes comparison these conversions imply at line 255 is therefore not modelled either.
- The Django ORM is modelled as two maps with upsert by key and delete by key. `Users.objects.get` raises when the session's user has no row (line 235). This is a precondition of `GetUserTags`, required only when the status is 200.
- `int(self.task_days)` is left out because `task_days` is modelled as an integer, so there is no string conversion.
- The console `print` at line 259 is left out because it is output only.
- The field `task_delay` (line 47) is initialised and never read by the core, so it is only a field of the class.
- Partial application of a tag synchronisation that fails midway is not modelled, because no database or network failure inside the loops is modelled.
