/**
 What the session controller sends to and receives from the remote task
 service. A response is an input to the model: its status code and the
 `data` member of its JSON body. The request is reduced to what the
 controller decides about it.
 */
module Api {
  import opened Store

  datatype Option<T> = None | Some(value: T)

  /** The status a password login, a token login, a task edit and a tag listing succeed with. */
  const StatusOk: int := 200
  /** The status a task creation succeeds with. */
  const StatusCreated: int := 201

  /** An HTTP response: `status_code` and the `data` member of the JSON body. */
  datatype Reply<D> = Reply(status: int, data: D)

  /** `data` of a password login: the account's id, API token and user name. */
  datatype LoginData = LoginData(id: UserId, apiToken: string, username: string)

  /** `data` of the current-user profile; only `profile.name` is read. */
  datatype ProfileData = ProfileData(profileName: string)

  /** `data` of a created or edited task; only its `id` is read. */
  datatype TaskData = TaskData(id: string)

  /** The form fields of a password login. */
  datatype Credentials = Credentials(username: string, password: string)

  /**
   The form fields of a task creation or edit. `kind` is the `type` field
   (sent as "todo" on creation, absent on edit). `dueInDays` stands for the
   `date` field: absent, or present as "now plus that many days" (the clock
   reading itself is not modelled).
   */
  datatype TaskBody = TaskBody(text: string, kind: Option<string>, notes: string,
                               dueInDays: Option<int>, priority: string, tags: seq<TagId>)
}
