/** Task comments (routes/commentRoutes.js): create, update and delete with
    their validation order, trimming, the mention e-mails and the newly
    mentioned diff on update, and the socket announcements.

    Comments are kept in insertion order, as `findOne` sees them; the task
    collection is a map from task id to the two fields the handlers read.
    Finding a user by a mentioned name is a database query with regular
    expressions and is a parameter `lookup` (the e-mail of the user found,
    if any); every `sendCommentMentionEmail` appends one `Mail` to the
    store, and every `logActivity` one record to its activity log. */
module Comments {
  import opened Common
  import Gateway
  import Mentions
  import Activity

  /** The schema's `maxlength` on `Content`. */
  const MaxContent: nat := 1000

  datatype Comment = Comment(id: string, task: string, author: string, content: string, createdAt: int)

  /** The task fields the comment handlers read: `ProjectID_FK` and `CreatedBy`. */
  datatype TaskInfo = TaskInfo(project: string, createdBy: Option<string>)

  /** One mention e-mail: the recipient and the comment text it quotes. */
  datatype Mail = Mail(to: string, content: string)

  datatype Store = Store(
    comments: seq<Comment>,
    tasks: map<string, TaskInfo>,
    mail: seq<Mail>,
    log: seq<Activity.Record>,
    io: Gateway.Server)

  /** The metadata of a comment activity. */
  function CommentMeta(taskId: string, commentId: string, author: string, project: string): map<string, string> {
    map["taskId" := taskId, "commentId" := commentId, "author" := author, "projectId" := project]
  }

  /** `logActivity(task.CreatedBy, typ, 'success', …)` about one comment. */
  function LogComment(log: seq<Activity.Record>, task: TaskInfo, typ: string, taskId: string,
                      commentId: string, author: string, now: int): seq<Activity.Record>
  {
    Activity.LogActivity(log, task.createdBy, typ, "success", author + " " + typ, CommentMeta(taskId, commentId, author, task.project), None, now).log
  }

  /** `log'` is `log` with one successful `typ` activity appended: logged
      for the task's creator, at `now`, naming the task, the comment, its
      author and the task's project. */
  predicate CommentLogged(log: seq<Activity.Record>, log': seq<Activity.Record>, task: TaskInfo, typ: string,
                          taskId: string, commentId: string, author: string, now: int)
  {
    |log'| == |log| + 1 && log'[..|log|] == log &&
    var a := log'[|log|];
    a.typ == typ && a.status == "success" && a.timestamp == now &&
    a.metadata == CommentMeta(taskId, commentId, author, task.project) &&
    (a.user.Some? <==> Truthy(task.createdBy)) && (a.user.Some? ==> a.user == task.createdBy)
  }

  /** The three comment activities are in the schema's enum, so logging
      them always succeeds. */
  lemma LogCommentSucceeds(log: seq<Activity.Record>, task: TaskInfo, typ: string, taskId: string,
                           commentId: string, author: string, now: int)
    requires typ in {"comment_added", "comment_updated", "comment_deleted"}
    ensures CommentLogged(log, LogComment(log, task, typ, taskId, commentId, author, now), task, typ, taskId, commentId, author, now)
  {
    assert typ in Activity.ActivityTypes;
  }

  /** Index of the first comment with this id, or -1. */
  function FindComment(cs: seq<Comment>, id: string): (i: int)
    ensures -1 <= i < |cs|
    ensures i >= 0 ==> cs[i].id == id && forall j :: 0 <= j < i ==> cs[j].id != id
    ensures i < 0 ==> forall j :: 0 <= j < |cs| ==> cs[j].id != id
  {
    if cs == [] then -1
    else if cs[0].id == id then 0
    else
      var k := FindComment(cs[1..], id);
      if k < 0 then -1 else k + 1
  }

  /** One e-mail per mentioned name whose lookup finds a user with an
      address, in the order of the names. */
  function MentionMails(names: seq<string>, lookup: string -> Option<string>, content: string): (ms: seq<Mail>)
    ensures |ms| <= |names|
  {
    if names == [] then []
    else
      (match lookup(names[0]) case Some(e) => [Mail(e, content)] case None => []) +
      MentionMails(names[1..], lookup, content)
  }

  /** Every mail quotes the text and goes to a mentioned user, and every
      mentioned name that finds a user gets one. */
  lemma {:induction false} MentionMailsReachMentioned(names: seq<string>, lookup: string -> Option<string>, content: string)
    ensures forall m :: m in MentionMails(names, lookup, content) ==>
      m.content == content && exists n :: n in names && lookup(n) == Some(m.to)
    ensures forall n :: n in names && lookup(n).Some? ==> Mail(lookup(n).value, content) in MentionMails(names, lookup, content)
  {
    if names != [] {
      MentionMailsReachMentioned(names[1..], lookup, content);
      var head := match lookup(names[0]) case Some(e) => [Mail(e, content)] case None => [];
      assert MentionMails(names, lookup, content) == head + MentionMails(names[1..], lookup, content);
      forall m | m in MentionMails(names, lookup, content)
        ensures m.content == content && exists n :: n in names && lookup(n) == Some(m.to)
      {
        if m in head {
          assert names[0] in names;
        } else {
          var n :| n in names[1..] && lookup(n) == Some(m.to);
          assert n in names;
        }
      }
    }
  }

  // ---------------------------------------------------------------------
  // Create (lines 24-144)
  // ---------------------------------------------------------------------

  /** The input checks of the create route, in their order: a missing
      author or content, then content that is only white space. */
  function CreateCheck(author: Option<string>, content: Option<string>): (r: Option<nat>)
    ensures r.Some? ==> r.value == 400
    ensures r.None? <==> Truthy(author) && Truthy(content) && !IsBlank(content.value)
  {
    if !Truthy(author) || !Truthy(content) then Some(400)
    else
      TrimEmptyIffBlank(content.value);
      if |Trim(content.value)| == 0 then Some(400) else None
  }

  /** `POST /tasks/:taskId/comments`: the input checks, the task lookup,
      then the save, which the schema refuses (500) for trimmed content
      over 1000 characters; a saved comment gets its mention mails, a
      `comment_added` activity and two announcements. */
  function CreateComment(st: Store, taskId: string, author: Option<string>, content: Option<string>,
                         newId: string, now: int, lookup: string -> Option<string>): (r: Reply<Store>)
    ensures CreateCheck(author, content).Some? ==> r == Err(400)
    ensures CreateCheck(author, content).None? ==> (r == Err(404) <==> taskId !in st.tasks)
    ensures CreateCheck(author, content).None? && taskId in st.tasks ==>
      (r == Err(500) <==> |Trim(content.value)| > MaxContent)
    ensures r.Err? ==> r.code == 400 || r.code == 404 || r.code == 500
    ensures r.Ok? ==>
      r.value.comments == st.comments + [Comment(newId, taskId, author.value, Trim(content.value), now)] &&
      r.value.tasks == st.tasks &&
      r.value.mail == st.mail + MentionMails(Mentions.ParseMentions(content.value), lookup, content.value) &&
      CommentLogged(st.log, r.value.log, st.tasks[taskId], "comment_added", taskId, newId, author.value, now) &&
      Gateway.Sent(st.io, r.value.io, [Gateway.Notice(Gateway.TaskRoom(taskId), "task.comment.created"),
                                       Gateway.Notice(Gateway.ProjectRoom(st.tasks[taskId].project), "task.comment.created")])
  {
    if CreateCheck(author, content).Some? then Err(400)
    else if taskId !in st.tasks then Err(404)
    else if |Trim(content.value)| > MaxContent then Err(500)
    else
      var task := st.tasks[taskId];
      var c := Comment(newId, taskId, author.value, Trim(content.value), now);
      var mails := MentionMails(Mentions.ParseMentions(content.value), lookup, content.value);
      LogCommentSucceeds(st.log, task, "comment_added", taskId, newId, author.value, now);
      var log := LogComment(st.log, task, "comment_added", taskId, newId, author.value, now);
      Ok(Store(st.comments + [c], st.tasks, st.mail + mails, log, AnnounceCreated(st.io, taskId, task.project)))
  }

  /** The two `task.comment.created` events: to the task room, then to the
      project room. */
  function AnnounceCreated(io: Gateway.Server, taskId: string, project: string): (io': Gateway.Server)
    ensures Gateway.Sent(io, io', [Gateway.Notice(Gateway.TaskRoom(taskId), "task.comment.created"),
                                   Gateway.Notice(Gateway.ProjectRoom(project), "task.comment.created")])
  {
    var io1 := Gateway.EmitToTask(io, taskId, "task.comment.created", Gateway.NoData);
    Gateway.EmitToProject(io1, project, "task.comment.created", Gateway.NoData)
  }

  /** A created comment is announced to the task room and then to the
      room of the task's project, and nothing else is emitted. */
  lemma CreateAnnouncements(st: Store, taskId: string, author: Option<string>, content: Option<string>,
                            newId: string, now: int, lookup: string -> Option<string>)
    requires st.io.initialized
    requires CreateComment(st, taskId, author, content, newId, now, lookup).Ok?
    ensures CreateComment(st, taskId, author, content, newId, now, lookup).value.io.outbox == st.io.outbox + [
        Gateway.Emission(Gateway.TaskRoom(taskId), "task.comment.created", Gateway.NoData, false),
        Gateway.Emission(Gateway.ProjectRoom(st.tasks[taskId].project), "task.comment.created", Gateway.NoData, false)]
  {
  }

  /** The stored comment has no white space at either end, is not empty,
      and is at most 1000 characters long. */
  lemma CreatedContentIsTrimmed(st: Store, taskId: string, author: Option<string>, content: Option<string>,
                                newId: string, now: int, lookup: string -> Option<string>)
    requires CreateComment(st, taskId, author, content, newId, now, lookup).Ok?
    ensures var c := CreateComment(st, taskId, author, content, newId, now, lookup).value.comments[|st.comments|];
      c.content != [] && !IsSpace(c.content[0]) && !IsSpace(c.content[|c.content| - 1]) &&
      Trim(c.content) == c.content && |c.content| <= MaxContent
  {
    var s := content.value;
    TrimEmptyIffBlank(s);
    TrimIdempotent(s);
  }

  // ---------------------------------------------------------------------
  // Update (lines 146-269)
  // ---------------------------------------------------------------------

  /** The names mentioned in the new text (`after`) and not in the old one
      (`before`), in the order of the new text. */
  function NewlyMentioned(before: seq<string>, after: seq<string>): (r: seq<string>)
    ensures |r| <= |after|
  {
    if after == [] then []
    else (if after[0] !in before then [after[0]] else []) + NewlyMentioned(before, after[1..])
  }

  /** A name is newly mentioned exactly when the after text mentions it and
      the before one does not. */
  lemma {:induction false} NewlyMentionedMembers(before: seq<string>, after: seq<string>, n: string)
    ensures n in NewlyMentioned(before, after) <==> n in after && n !in before
  {
    if after != [] {
      NewlyMentionedMembers(before, after[1..], n);
      assert after == [after[0]] + after[1..];
    }
  }

  /** The newly mentioned names keep the order, and the repeats, of the after
      text: they are the after text with the before names left out. */
  lemma {:induction false} NewlyMentionedIsFilter(before: seq<string>, after: seq<string>)
    ensures NewlyMentioned(before, after) == Filter(after, n => n !in before)
  {
    if after != [] {
      NewlyMentionedIsFilter(before, after[1..]);
    }
  }

  /** Re-mentioning the same names notifies nobody. */
  lemma {:induction false} NoNewMentionsOfSubset(before: seq<string>, after: seq<string>)
    requires forall n :: n in after ==> n in before
    ensures NewlyMentioned(before, after) == []
  {
    if after != [] {
      NoNewMentionsOfSubset(before, after[1..]);
    }
  }

  /** The schema fields a request body may carry; an absent field is
      `None`, and fields outside the schema are dropped by Mongoose. */
  datatype Patch = Patch(
    id: Option<string>,
    task: Option<string>,
    author: Option<string>,
    content: Option<string>,
    createdAt: Option<int>)

  /** `{ ...update, Content: update.Content?.trim() }` applied to a comment:
      every given field replaces the stored one, content stored trimmed,
      and absent fields are kept.  The body may rename the comment and move
      it to another task. */
  function ApplyPatch(c: Comment, p: Patch): (c': Comment)
    ensures c'.id == (if p.id.Some? then p.id.value else c.id)
    ensures c'.task == (if p.task.Some? then p.task.value else c.task)
    ensures c'.author == (if p.author.Some? then p.author.value else c.author)
    ensures c'.content == (if p.content.Some? then Trim(p.content.value) else c.content)
    ensures c'.createdAt == (if p.createdAt.Some? then p.createdAt.value else c.createdAt)
  {
    Comment(Given(p.id, c.id), Given(p.task, c.task), Given(p.author, c.author),
            if p.content.Some? then Trim(p.content.value) else c.content,
            if p.createdAt.Some? then p.createdAt.value else c.createdAt)
  }

  /** A present field, else the stored one. */
  function Given(given: Option<string>, stored: string): string {
    if given.Some? then given.value else stored
  }

  /** A body with no fields leaves the comment as it is, and a patch
      applied twice is the patch applied once. */
  lemma ApplyPatchIdempotent(c: Comment, p: Patch)
    ensures ApplyPatch(c, Patch(None, None, None, None, None)) == c
    ensures ApplyPatch(ApplyPatch(c, p), p) == ApplyPatch(c, p)
  {
    if p.content.Some? {
      TrimIdempotent(p.content.value);
    }
  }

  /** The mail sent for an update: only when the content is given, is not
      empty and differs from the stored one, and only to the newly mentioned
      names. */
  function UpdateMails(c: Comment, p: Patch, lookup: string -> Option<string>): (ms: seq<Mail>)
    ensures !Truthy(p.content) || p.content.value == c.content ==> ms == []
  {
    if Truthy(p.content) && p.content.value != c.content then
      var newly := NewlyMentioned(Mentions.ParseMentions(c.content), Mentions.ParseMentions(p.content.value));
      MentionMails(newly, lookup, p.content.value)
    else []
  }

  /** The update's only input check: content that is given, not empty,
      and only white space.  Empty content passes it. */
  predicate BlankUpdate(content: Option<string>)
    ensures BlankUpdate(content) <==> Truthy(content) && IsBlank(content.value)
  {
    if !Truthy(content) then false
    else
      TrimEmptyIffBlank(content.value);
      |Trim(content.value)| == 0
  }

  /** `PATCH /comments/:commentId`: the blank-content check, the comment
      and its task looked up, the mails for newly mentioned names, then the
      patch (not validated by `findOneAndUpdate`), a `comment_updated`
      activity and one announcement. */
  function UpdateComment(st: Store, commentId: string, p: Patch, now: int, lookup: string -> Option<string>): (r: Reply<Store>)
    ensures BlankUpdate(p.content) ==> r == Err(400)
    ensures !BlankUpdate(p.content) ==>
      (FindComment(st.comments, commentId) < 0 ==> r == Err(404)) &&
      (FindComment(st.comments, commentId) >= 0 ==>
         (r.Err? <==> st.comments[FindComment(st.comments, commentId)].task !in st.tasks))
    ensures r.Err? ==> r.code == 400 || r.code == 404
    ensures r.Ok? ==>
      var i := FindComment(st.comments, commentId);
      i >= 0 &&
      r.value.comments == st.comments[i := ApplyPatch(st.comments[i], p)] &&
      r.value.tasks == st.tasks &&
      r.value.mail == st.mail + UpdateMails(st.comments[i], p, lookup) &&
      CommentLogged(st.log, r.value.log, st.tasks[st.comments[i].task], "comment_updated",
                    st.comments[i].task, commentId, st.comments[i].author, now)
    ensures r.Ok? ==> r.value.io.initialized == st.io.initialized
  {
    if BlankUpdate(p.content) then Err(400)
    else
      var i := FindComment(st.comments, commentId);
      if i < 0 then Err(404)
      else
        var c := st.comments[i];
        if c.task !in st.tasks then Err(404)
        else
          LogCommentSucceeds(st.log, st.tasks[c.task], "comment_updated", c.task, commentId, c.author, now);
          var log := LogComment(st.log, st.tasks[c.task], "comment_updated", c.task, commentId, c.author, now);
          var io1 := Gateway.EmitToTask(st.io, c.task, "task.comment.updated", Gateway.NoData);
          Ok(Store(st.comments[i := ApplyPatch(c, p)], st.tasks, st.mail + UpdateMails(c, p, lookup), log, io1))
  }

  /** An update is announced once, to the room of the comment's task. */
  lemma UpdateAnnouncement(st: Store, commentId: string, p: Patch, now: int, lookup: string -> Option<string>)
    requires st.io.initialized
    requires UpdateComment(st, commentId, p, now, lookup).Ok?
    ensures var c := st.comments[FindComment(st.comments, commentId)];
      UpdateComment(st, commentId, p, now, lookup).value.io.outbox == st.io.outbox +
        [Gateway.Emission(Gateway.TaskRoom(c.task), "task.comment.updated", Gateway.NoData, false)]
  {
  }

  /** An update touches only the comment it names. */
  lemma UpdateLeavesOthers(st: Store, commentId: string, p: Patch, now: int, lookup: string -> Option<string>, j: int)
    requires UpdateComment(st, commentId, p, now, lookup).Ok?
    requires 0 <= j < |st.comments| && st.comments[j].id != commentId
    ensures UpdateComment(st, commentId, p, now, lookup).value.comments[j] == st.comments[j]
  {
  }

  /** Saving the text a comment already has sends no mail; saving text that
      only repeats earlier mentions sends none either. */
  lemma UnchangedMentionsSendNoMail(st: Store, commentId: string, p: Patch, now: int, lookup: string -> Option<string>)
    requires UpdateComment(st, commentId, p, now, lookup).Ok?
    requires p.content.Some?
    requires var c := st.comments[FindComment(st.comments, commentId)];
      forall n :: n in Mentions.ParseMentions(p.content.value) ==> n in Mentions.ParseMentions(c.content)
    ensures UpdateComment(st, commentId, p, now, lookup).value.mail == st.mail
  {
    var c := st.comments[FindComment(st.comments, commentId)];
    NoNewMentionsOfSubset(Mentions.ParseMentions(c.content), Mentions.ParseMentions(p.content.value));
    assert UpdateMails(c, p, lookup) == [];
  }

  // ---------------------------------------------------------------------
  // Delete (lines 271-320)
  // ---------------------------------------------------------------------

  /** `DELETE /comments/:commentId`: the comment and its task looked up,
      then the comment removed, a `comment_deleted` activity and one
      announcement. */
  function DeleteComment(st: Store, commentId: string, now: int): (r: Reply<Store>)
    ensures FindComment(st.comments, commentId) < 0 ==> r == Err(404)
    ensures FindComment(st.comments, commentId) >= 0 ==>
      (r == Err(404) <==> st.comments[FindComment(st.comments, commentId)].task !in st.tasks)
    ensures r.Err? ==> r.code == 404
    ensures r.Ok? ==>
      var i := FindComment(st.comments, commentId);
      i >= 0 && |r.value.comments| == |st.comments| - 1 &&
      r.value.comments == st.comments[..i] + st.comments[i + 1..] &&
      r.value.tasks == st.tasks && r.value.mail == st.mail &&
      CommentLogged(st.log, r.value.log, st.tasks[st.comments[i].task], "comment_deleted",
                    st.comments[i].task, commentId, st.comments[i].author, now)
    ensures r.Ok? ==> r.value.io.initialized == st.io.initialized
  {
    var i := FindComment(st.comments, commentId);
    if i < 0 then Err(404)
    else
      var c := st.comments[i];
      if c.task !in st.tasks then Err(404)
      else
        LogCommentSucceeds(st.log, st.tasks[c.task], "comment_deleted", c.task, commentId, c.author, now);
        var log := LogComment(st.log, st.tasks[c.task], "comment_deleted", c.task, commentId, c.author, now);
        var io1 := Gateway.EmitToTask(st.io, c.task, "task.comment.deleted", Gateway.NoData);
        Ok(Store(st.comments[..i] + st.comments[i + 1..], st.tasks, st.mail, log, io1))
  }

  /** A deletion is announced once, to the room of the comment's task. */
  lemma DeleteAnnouncement(st: Store, commentId: string, now: int)
    requires st.io.initialized
    requires DeleteComment(st, commentId, now).Ok?
    ensures var c := st.comments[FindComment(st.comments, commentId)];
      DeleteComment(st, commentId, now).value.io.outbox == st.io.outbox +
        [Gateway.Emission(Gateway.TaskRoom(c.task), "task.comment.deleted", Gateway.NoData, false)]
  {
  }

  /** Comment ids are unique, as the schema's generated ids are. */
  predicate UniqueIds(cs: seq<Comment>) {
    forall a, b :: 0 <= a < b < |cs| ==> cs[a].id != cs[b].id
  }

  /** Removing the first comment with an id from a list of unique ids
      removes every comment with that id and keeps all others. */
  lemma RemoveUnique(cs: seq<Comment>, i: int, id: string)
    requires UniqueIds(cs) && 0 <= i < |cs| && cs[i].id == id
    ensures var rest := cs[..i] + cs[i + 1..];
      (forall c :: c in rest ==> c in cs && c.id != id) &&
      (forall c :: c in cs && c.id != id ==> c in rest) &&
      UniqueIds(rest)
  {
    var rest := cs[..i] + cs[i + 1..];
    assert forall k :: 0 <= k < |rest| ==> rest[k] == cs[if k < i then k else k + 1];
    forall c | c in cs && c.id != id
      ensures c in rest
    {
      var k :| 0 <= k < |cs| && cs[k] == c;
      assert rest[if k < i then k else k - 1] == c;
    }
  }

  /** With unique ids, a deleted comment is gone: every comment that
      remains was there before and has another id, and a second delete of
      it finds nothing. */
  lemma DeleteRemovesExactlyOne(st: Store, commentId: string, now: int)
    requires UniqueIds(st.comments)
    requires DeleteComment(st, commentId, now).Ok?
    ensures var st' := DeleteComment(st, commentId, now).value;
      (forall c :: c in st'.comments ==> c in st.comments && c.id != commentId) &&
      (forall c :: c in st.comments && c.id != commentId ==> c in st'.comments) &&
      UniqueIds(st'.comments) &&
      DeleteComment(st', commentId, now) == Err(404)
  {
    var i := FindComment(st.comments, commentId);
    RemoveUnique(st.comments, i, commentId);
    var st' := DeleteComment(st, commentId, now).value;
    assert forall j :: 0 <= j < |st'.comments| ==> st'.comments[j] in st'.comments;
  }
}
