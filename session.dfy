/**
 The per-session controller of the To Do Overs tool: the session fields, the
 two logins, task creation and editing, and the synchronisation of the
 user's tags into the `Tags` table.
 */
module Session {
  import opened Lists
  import opened Store
  import opened Api

  /** The session object, kept in a cookie between requests. */
  class ToDoOversData {
    var username: string
    var habUserId: UserId
    /** The API token, encrypted. */
    var apiToken: string
    var loggedIn: bool
    /** Tag ids to attach to the task being composed. */
    var tags: seq<TagId>

    var taskName: string
    var taskDays: int
    var taskDelay: int
    var taskId: string
    var priority: string
    var notes: string

    /** The status code of the last response received. */
    var returnCode: int

    /** A fresh session: anonymous, nothing composed, no response yet. */
    constructor ()
      ensures username == "" && habUserId == "" && apiToken == "" && !loggedIn && tags == []
      ensures taskName == "" && taskDays == 0 && taskDelay == 0 && taskId == ""
      ensures priority == "" && notes == ""
      ensures returnCode == 0
    {
      username := "";
      habUserId := "";
      apiToken := "";
      loggedIn := false;
      tags := [];
      taskName := "";
      taskDays := 0;
      taskDelay := 0;
      taskId := "";
      priority := "";
      notes := "";
      returnCode := 0;
    }

    /**
     Password login. `sent` is the login form; `reply` is the service's answer
     to it; `encrypt` is the token cipher. On 200 the session takes the
     account's id, encrypted token and name, the account's `Users` row is
     created or overwritten, and the session is logged in. On any other
     status only the status is recorded.
     */
    method Login(db: Database, password: string, reply: Reply<LoginData>, encrypt: string -> string)
      returns (ok: bool, sent: Credentials)
      modifies this`returnCode, this`habUserId, this`apiToken, this`username, this`loggedIn, db`users
      ensures sent == Credentials(old(username), password)
      ensures returnCode == reply.status
      ensures ok <==> reply.status == StatusOk
      ensures loggedIn == (old(loggedIn) || ok)
      ensures ok ==> habUserId == reply.data.id && apiToken == encrypt(reply.data.apiToken)
                     && username == reply.data.username
                     && db.users == old(db.users)[reply.data.id := UserRecord(apiToken, username)]
      ensures !ok ==> habUserId == old(habUserId) && apiToken == old(apiToken)
                      && username == old(username) && db.users == old(db.users)
    {
      sent := Credentials(username, password);
      returnCode := reply.status;
      if reply.status == StatusOk {
        habUserId := reply.data.id;
        apiToken := encrypt(reply.data.apiToken);
        username := reply.data.username;
        db.users := db.users[habUserId := UserRecord(apiToken, username)];
        loggedIn := true;
        ok := true;
      } else {
        ok := false;
      }
    }

    /**
     Token login with the id and encrypted token already in the session.
     On 200 the session takes the profile name, the `Users` row for the
     session's id is created or overwritten, and the session is logged in.
     On any other status only the status is recorded.
     */
    method LoginApiKey(db: Database, reply: Reply<ProfileData>) returns (ok: bool)
      modifies this`returnCode, this`username, this`loggedIn, db`users
      ensures returnCode == reply.status
      ensures ok <==> reply.status == StatusOk
      ensures loggedIn == (old(loggedIn) || ok)
      ensures ok ==> username == reply.data.profileName
                     && db.users == old(db.users)[habUserId := UserRecord(apiToken, username)]
      ensures !ok ==> username == old(username) && db.users == old(db.users)
    {
      returnCode := reply.status;
      if reply.status == StatusOk {
        username := reply.data.profileName;
        db.users := db.users[habUserId := UserRecord(apiToken, username)];
        loggedIn := true;
        return true;
      }
      return false;
    }

    /**
     Create the composed task as a to-do. `body` is the form sent: it carries
     a due date exactly when `taskDays` is positive. On 201 the session keeps
     the new task's id; otherwise the id is left as it was.
     */
    method CreateTask(reply: Reply<TaskData>) returns (ok: bool, body: TaskBody)
      modifies this`returnCode, this`taskId
      ensures body.dueInDays.Some? <==> taskDays > 0
      ensures body.dueInDays.Some? ==> body.dueInDays.value == taskDays
      ensures body.text == taskName && body.kind == Some("todo") && body.notes == notes
              && body.priority == priority && body.tags == tags
      ensures returnCode == reply.status
      ensures ok <==> reply.status == StatusCreated
      ensures taskId == if ok then reply.data.id else old(taskId)
    {
      if taskDays > 0 {
        body := TaskBody(taskName, Some("todo"), notes, Some(taskDays), priority, tags);
        returnCode := reply.status;
        if reply.status == StatusCreated {
          taskId := reply.data.id;
          return true, body;
        }
        return false, body;
      } else {
        body := TaskBody(taskName, Some("todo"), notes, None, priority, tags);
        returnCode := reply.status;
        if reply.status == StatusCreated {
          taskId := reply.data.id;
          return true, body;
        }
        return false, body;
      }
    }

    /**
     Edit the task `taskId` (the id is used as it is, empty or not). `body`
     follows the same due-date rule as creation and has no `type` field. On
     200 the session takes the id the service returns; otherwise the id is
     left as it was.
     */
    method EditTask(reply: Reply<TaskData>) returns (ok: bool, target: string, body: TaskBody)
      modifies this`returnCode, this`taskId
      ensures target == old(taskId)
      ensures body.dueInDays.Some? <==> taskDays > 0
      ensures body.dueInDays.Some? ==> body.dueInDays.value == taskDays
      ensures body.text == taskName && body.kind == None && body.notes == notes
              && body.priority == priority && body.tags == tags
      ensures returnCode == reply.status
      ensures ok <==> reply.status == StatusOk
      ensures taskId == if ok then reply.data.id else old(taskId)
    {
      target := taskId;
      if taskDays > 0 {
        body := TaskBody(taskName, None, notes, Some(taskDays), priority, tags);
        returnCode := reply.status;
        if reply.status == StatusOk {
          taskId := reply.data.id;
          return true, target, body;
        }
        return false, target, body;
      } else {
        body := TaskBody(taskName, None, notes, None, priority, tags);
        returnCode := reply.status;
        if reply.status == StatusOk {
          taskId := reply.data.id;
          return true, target, body;
        } else {
          return false, target, body;
        }
      }
    }

    /**
     Fetch the user's tags and reconcile the `Tags` table with them. On 200
     with a non-empty listing, every listed tag is upserted with this user as
     owner and text `encode(name)`, the user's other tags are deleted, and the
     listing is returned. On 200 with an empty listing, or on any other
     status, the table is left alone and the result is a failure. The
     `Users` row of the session's id must exist when the listing arrives
     (the lookup raises otherwise).
     */
    method GetUserTags(db: Database, reply: Reply<seq<RemoteTag>>, encode: string -> string)
      returns (result: Option<seq<RemoteTag>>)
      requires reply.status == StatusOk ==> habUserId in db.users
      modifies this`returnCode, db`tags
      ensures returnCode == reply.status
      ensures result == if reply.status == StatusOk && reply.data != [] then Some(reply.data) else None
      ensures db.tags == if result.Some? then Reconcile(old(db.tags), habUserId, reply.data, encode)
                         else old(db.tags)
    {
      returnCode := reply.status;
      if reply.status != StatusOk {
        return None;
      }
      var user := habUserId;

      var currentTagIds := CurrentTagIds(db.tags, user);

      var data := reply.data;
      if data == [] {
        return None;
      }

      var leftover := UpsertRemoteTags(db, user, data, encode, currentTagIds);
      DeleteTags(db, leftover);
      return Some(data);
    }
  }

  /**
   `current_tag_ids`: the ids of the rows of `store` owned by `user`, each
   once, in the (unspecified) order the query yields them.
   */
  method CurrentTagIds(store: map<TagId, TagRecord>, user: UserId) returns (ids: seq<TagId>)
    ensures Elems(ids) == OwnedIds(store, user)
    ensures NoDuplicates(ids)
  {
    ids := [];
    var pending := OwnedIds(store, user);
    while pending != {}
      invariant Elems(ids) + pending == OwnedIds(store, user)
      invariant Elems(ids) !! pending
      invariant NoDuplicates(ids)
      decreases pending
    {
      var id :| id in pending;
      NoDuplicatesSnoc(ids, id);
      ids := ids + [id];
      pending := pending - {id};
    }
  }

  /**
   The upsert loop: each remote tag in order is created or overwritten with
   owner `user` and text `encode(name)`, and its id, when still in the
   working list `ids`, is removed from it. `leftover` is what remains.
   */
  method UpsertRemoteTags(db: Database, user: UserId, data: seq<RemoteTag>, encode: string -> string,
                          ids: seq<TagId>) returns (leftover: seq<TagId>)
    requires NoDuplicates(ids)
    modifies db`tags
    ensures db.tags == UpsertAll(old(db.tags), user, data, encode)
    ensures Elems(leftover) == Elems(ids) - RemoteIds(data)
    ensures NoDuplicates(leftover)
  {
    leftover := ids;
    var i := 0;
    while i < |data|
      invariant 0 <= i <= |data|
      invariant db.tags == UpsertAll(old(db.tags), user, data[..i], encode)
      invariant Elems(leftover) == Elems(ids) - RemoteIds(data[..i])
      invariant NoDuplicates(leftover)
    {
      var tag := data[i];
      db.tags := db.tags[tag.id := TagRecord(user, encode(tag.name))];
      if tag.id in leftover {
        RemoveFirstDistinct(leftover, tag.id);
        leftover := RemoveFirst(leftover, tag.id);
      }
      UpsertAllStep(old(db.tags), user, data, encode, i);
      RemoteIdsStep(data, i);
      i := i + 1;
    }
    assert data[..i] == data;
  }

  /** The deletion loop: every id in `ids` is deleted from the `Tags` table by key. */
  method DeleteTags(db: Database, ids: seq<TagId>)
    modifies db`tags
    ensures db.tags == old(db.tags) - Elems(ids)
  {
    var k := 0;
    while k < |ids|
      invariant 0 <= k <= |ids|
      invariant db.tags == old(db.tags) - Elems(ids[..k])
    {
      ElemsStep(ids, k);
      db.tags := db.tags - {ids[k]};
      k := k + 1;
    }
    assert ids[..k] == ids;
  }
}
