/** The help chatbot (routes/chatbotRoutes.js, models/ChatConversation.js).

    A message is lower-cased and classified by a fixed rule order: greeting
    prefixes, goodbye prefixes, "how to" topics, "what is" topics, and a
    fallback.  Authenticated users get the exchange stored in their single
    active conversation.  The random pick among canned greetings and
    goodbyes is a parameter. */
module Chatbot {
  import opened Common
  import Activity

  // ---------------------------------------------------------------------
  // Replies
  // ---------------------------------------------------------------------

  datatype Link = Link(text: string, url: string, kind: string)

  /** A reply: text plus an optional list of links (absent for goodbyes). */
  datatype BotReply = BotReply(text: string, links: Option<seq<Link>>)

  datatype Topic = Registration | Login | Teams | Projects | Tasks | Profile | Kanban | Query | UserStories | Dashboard | Landing

  datatype Intent = Greeting | Goodbye | Help(topic: Topic) | Fallback

  const Greetings: seq<string> := [
    "Hello! How can I help you today?",
    "Hi there! What can I do for you?",
    "Welcome! How may I assist you?"]

  const Goodbyes: seq<string> := [
    "Goodbye! Have a great day!",
    "See you later! Feel free to come back if you have more questions.",
    "Take care! Don't hesitate to ask if you need help again."]

  const GreetingLinks: seq<Link> := [
    Link("Login", "/", "action"), Link("Register", "/register", "action"), Link("Learn More", "/", "action")]

  const FallbackReply: BotReply :=
    BotReply("I'm still learning about TeamLabs. For specific questions, please contact our support team.",
             Some([Link("Contact Support", "/support", "action")]))

  function HelpText(t: Topic): string {
    match t
    case Registration => "To register, click on the 'Register' button and fill out the form with your details. You'll need to provide your name, email, and create a password."
    case Login => "To log in, click the 'Login' button and enter your email/username and password. You can also use Google Sign-In if you prefer."
    case Teams => "Teams are groups of users working together on projects. You can create a team, join existing teams, or manage team members through the Teams section."
    case Projects => "Projects help organize your work. You can create projects, assign tasks, and track progress. Each project can have multiple tasks and team members."
    case Tasks => "Tasks are individual work items within a project. You can create tasks, assign them to team members, set deadlines, and update their status."
    case Profile => "You can update your profile by clicking on your profile picture/name in the top right corner and selecting 'Profile'. Here you can update your personal information and preferences."
    case Kanban => "The Kanban board helps you visualize your workflow. You can drag and drop tasks between different status columns (To Do, In Progress, Done) to track progress."
    case Query => "The Query board allows you to search and filter tasks based on various criteria like status, assignee, due date, and more."
    case UserStories => "User stories help capture requirements from a user's perspective. You can create user stories, link them to tasks, and track their implementation status."
    case Dashboard => "The dashboard is your central hub for managing teams, projects, and tasks. You can access all your important information and tools from here."
    case Landing => "The landing page provides an overview of TeamLabs features and benefits. You can learn more about our project management platform here."
  }

  function HelpLink(t: Topic): Link {
    match t
    case Registration => Link("Register Now", "/register", "action")
    case Login => Link("Login Now", "/", "action")
    case Teams => Link("Go to Teams", "/teams", "action")
    case Projects => Link("View Projects", "/projects", "action")
    case Tasks => Link("View Tasks", "/tasks", "action")
    case Profile => Link("Update Profile", "/profile", "action")
    case Kanban => Link("Open Kanban Board", "/kanban", "action")
    case Query => Link("Open Query Board", "/query", "action")
    case UserStories => Link("View User Stories", "/user-stories", "action")
    case Dashboard => Link("Go to Dashboard", "/dashboard", "action")
    case Landing => Link("Visit Landing Page", "/", "action")
  }

  /** The canned answer of a help topic: its text and one action link. */
  function HelpReply(t: Topic): BotReply {
    BotReply(HelpText(t), Some([HelpLink(t)]))
  }

  // ---------------------------------------------------------------------
  // Classification
  // ---------------------------------------------------------------------

  predicate StartsWithAny(s: string, ps: seq<string>) {
    exists k :: 0 <= k < |ps| && StartsWith(s, ps[k])
  }

  predicate ContainsAny(s: string, ws: seq<string>) {
    exists k :: 0 <= k < |ws| && Contains(s, ws[k])
  }

  function IncludesAny(s: string, ws: seq<string>): (b: bool)
    ensures b <==> ContainsAny(s, ws)
  {
    if ws == [] then false
    else if Includes(s, ws[0]) then true
    else
      var b := IncludesAny(s, ws[1..]);
      assert ContainsAny(s, ws[1..]) <==> exists k :: 1 <= k < |ws| && Contains(s, ws[k]) by {
        if ContainsAny(s, ws[1..]) {
          var k :| 0 <= k < |ws[1..]| && Contains(s, ws[1..][k]);
          assert ws[k + 1] == ws[1..][k];
        }
        if exists k :: 1 <= k < |ws| && Contains(s, ws[k]) {
          var k :| 1 <= k < |ws| && Contains(s, ws[k]);
          assert ws[1..][k - 1] == ws[k];
        }
      }
      b
  }

  function StartsWithAnyOf(s: string, ps: seq<string>): (b: bool)
    ensures b <==> StartsWithAny(s, ps)
  {
    if ps == [] then false
    else if StartsWith(s, ps[0]) then true
    else
      var b := StartsWithAnyOf(s, ps[1..]);
      assert StartsWithAny(s, ps[1..]) <==> exists k :: 1 <= k < |ps| && StartsWith(s, ps[k]) by {
        if StartsWithAny(s, ps[1..]) {
          var k :| 0 <= k < |ps[1..]| && StartsWith(s, ps[1..][k]);
          assert ps[k + 1] == ps[1..][k];
        }
        if exists k :: 1 <= k < |ps| && StartsWith(s, ps[k]) {
          var k :| 1 <= k < |ps| && StartsWith(s, ps[k]);
          assert ps[1..][k - 1] == ps[k];
        }
      }
      b
  }

  const GreetingWords: seq<string> := ["hi", "hello", "hey", "greetings"]
  const GoodbyeWords: seq<string> := ["bye", "goodbye", "see you", "farewell"]
  const HowToWords: seq<string> := ["how to", "how do i"]
  const WhatIsWords: seq<string> := ["what is", "what are"]

  /** A topic with the phrases that select it. */
  datatype Rule = Rule(words: seq<string>, topic: Topic)

  /** The "how to" topics, in the order they are tried. */
  const HowToRules: seq<Rule> := [
    Rule(["register", "sign up"], Registration),
    Rule(["login", "sign in"], Login),
    Rule(["team"], Teams),
    Rule(["project"], Projects),
    Rule(["task"], Tasks),
    Rule(["profile"], Profile),
    Rule(["kanban"], Kanban),
    Rule(["query"], Query),
    Rule(["user story", "user stories"], UserStories)]

  /** The "what is" topics, in the order they are tried. */
  const WhatIsRules: seq<Rule> := [
    Rule(["team"], Teams),
    Rule(["project"], Projects),
    Rule(["task"], Tasks),
    Rule(["kanban"], Kanban),
    Rule(["query"], Query),
    Rule(["user story", "user stories"], UserStories),
    Rule(["dashboard"], Dashboard),
    Rule(["landing page"], Landing)]

  /** The topic of the first rule one of whose phrases occurs in `s`. */
  function FirstTopic(s: string, rules: seq<Rule>): (t: Option<Topic>)
    ensures t.Some? <==> exists k :: 0 <= k < |rules| && ContainsAny(s, rules[k].words)
    ensures t.Some? ==> exists k :: 0 <= k < |rules| && ContainsAny(s, rules[k].words) &&
                                    rules[k].topic == t.value &&
                                    forall j :: 0 <= j < k ==> !ContainsAny(s, rules[j].words)
  {
    if rules == [] then None
    else if IncludesAny(s, rules[0].words) then Some(rules[0].topic)
    else
      var t := FirstTopic(s, rules[1..]);
      assert forall k :: 1 <= k < |rules| ==> rules[k] == rules[1..][k - 1];
      if t.Some? then
        var k :| 0 <= k < |rules[1..]| && ContainsAny(s, rules[1..][k].words) &&
          rules[1..][k].topic == t.value && forall j :: 0 <= j < k ==> !ContainsAny(s, rules[1..][j].words);
        assert forall j :: 0 <= j < k + 1 ==> !ContainsAny(s, rules[j].words) by {
          forall j | 0 <= j < k + 1 ensures !ContainsAny(s, rules[j].words) {
            if j > 0 { assert rules[j] == rules[1..][j - 1]; }
          }
        }
        t
      else
        t
  }

  /** The intent of an already lower-cased message. */
  function ClassifyLower(lower: string): (i: Intent)
    ensures i == Greeting <==> StartsWithAny(lower, GreetingWords)
    ensures i == Goodbye <==> !StartsWithAny(lower, GreetingWords) && StartsWithAny(lower, GoodbyeWords)
  {
    if StartsWithAnyOf(lower, GreetingWords) then Greeting
    else if StartsWithAnyOf(lower, GoodbyeWords) then Goodbye
    else
      var howTo := if IncludesAny(lower, HowToWords) then FirstTopic(lower, HowToRules) else None;
      if howTo.Some? then Help(howTo.value)
      else
        var whatIs := if IncludesAny(lower, WhatIsWords) then FirstTopic(lower, WhatIsRules) else None;
        if whatIs.Some? then Help(whatIs.value) else Fallback
  }

  /** `processMessage`'s decision: the message is lower-cased first. */
  function Classify(message: string): Intent {
    ClassifyLower(Lower(message))
  }

  /** The reply for an intent; `pick` is the random index among the canned
      greetings or goodbyes. */
  function Respond(i: Intent, pick: nat): (r: BotReply)
    requires pick < 3
    ensures i == Greeting ==> r.text in Greetings && r.links == Some(GreetingLinks)
    ensures i == Goodbye ==> r.text in Goodbyes && r.links.None?
    ensures i.Help? ==> r == HelpReply(i.topic)
    ensures i == Fallback ==> r == FallbackReply
  {
    match i
    case Greeting => BotReply(Greetings[pick], Some(GreetingLinks))
    case Goodbye => BotReply(Goodbyes[pick], None)
    case Help(t) => HelpReply(t)
    case Fallback => FallbackReply
  }

  function ProcessMessage(message: string, pick: nat): BotReply
    requires pick < 3
  {
    Respond(Classify(message), pick)
  }

  lemma LowerIdempotent(s: string)
    ensures Lower(Lower(s)) == Lower(s)
  {
  }

  /** Classification ignores letter case. */
  lemma ClassifyIgnoresCase(a: string, b: string)
    requires Lower(a) == Lower(b)
    ensures Classify(a) == Classify(b)
  {
  }

  /** A greeting prefix wins over every later rule, whatever follows it. */
  lemma GreetingWins(rest: string)
    ensures Classify("Hi" + rest) == Greeting
  {
    assert Lower("Hi" + rest)[..2] == "hi";
    assert StartsWith(Lower("Hi" + rest), GreetingWords[0]);
  }

  /** In a "how to" question the registration phrases are tried first, so
      "how do i sign up for a team" is about registration, not teams. */
  lemma HowToRegistrationFirst(lower: string)
    requires !StartsWithAny(lower, GreetingWords) && !StartsWithAny(lower, GoodbyeWords)
    requires Contains(lower, "how do i") && Contains(lower, "sign up")
    ensures ClassifyLower(lower) == Help(Registration)
  {
    assert Contains(lower, HowToWords[1]);
    assert Contains(lower, HowToRules[0].words[1]);
  }

  /** A "how to" question with no topic word falls through to the "what is"
      rules, then to the fallback. */
  lemma HowToFallsThrough(lower: string)
    requires !StartsWithAny(lower, GreetingWords) && !StartsWithAny(lower, GoodbyeWords)
    requires forall k :: 0 <= k < |HowToRules| ==> !ContainsAny(lower, HowToRules[k].words)
    ensures ClassifyLower(lower) ==
      (if ContainsAny(lower, WhatIsWords) && FirstTopic(lower, WhatIsRules).Some?
       then Help(FirstTopic(lower, WhatIsRules).value) else Fallback)
  {
  }

  // ---------------------------------------------------------------------
  // Stored conversations (models/ChatConversation.js)
  // ---------------------------------------------------------------------

  /** The JavaScript values a Mixed schema field can hold. */
  datatype JsValue =
    | JsUndefined
    | JsNull
    | JsBool(b: bool)
    | JsNumber(n: int)
    | JsString(s: string)
    | JsArray(items: seq<JsValue>)
    | JsObject(fields: map<string, JsValue>)

  predicate JsTruthy(v: JsValue) {
    match v
    case JsUndefined => false
    case JsNull => false
    case JsBool(b) => b
    case JsNumber(n) => n != 0
    case JsString(s) => s != ""
    case _ => true
  }

  function Field(v: JsValue, name: string): JsValue {
    if v.JsObject? && name in v.fields then v.fields[name] else JsUndefined
  }

  /** The content validator: a string, or a non-null object whose `text` is a
      string and whose `links` are absent, falsy or an array. */
  predicate ValidContent(v: JsValue) {
    match v
    case JsString(_) => true
    case JsObject(_) => Field(v, "text").JsString? && (!JsTruthy(Field(v, "links")) || Field(v, "links").JsArray?)
    case JsArray(_) => false
    case _ => false
  }

  lemma ValidContentCases(v: JsValue)
    ensures v.JsNull? || v.JsUndefined? || v.JsBool? || v.JsNumber? || v.JsArray? ==> !ValidContent(v)
    ensures ValidContent(JsObject(map["text" := JsString("")]))
    ensures !ValidContent(JsObject(map["text" := JsString(""), "links" := JsString("x")]))
    ensures ValidContent(JsObject(map["text" := JsString(""), "links" := JsNull]))
  {
  }

  function LinkValue(l: Link): JsValue {
    JsObject(map["text" := JsString(l.text), "url" := JsString(l.url), "type" := JsString(l.kind)])
  }

  /** The reply as the stored object. */
  function ReplyValue(r: BotReply): (v: JsValue)
    ensures ValidContent(v)
  {
    match r.links
    case None => JsObject(map["text" := JsString(r.text)])
    case Some(ls) =>
      JsObject(map["text" := JsString(r.text), "links" := JsArray(seq(|ls|, k requires 0 <= k < |ls| => LinkValue(ls[k])))])
  }

  datatype Role = UserRole | BotRole
  datatype ChatMessage = ChatMessage(role: Role, content: JsValue, timestamp: int)
  datatype Status = Active | Archived

  function RoleName(r: Role): string {
    match r
    case UserRole => "user"
    case BotRole => "bot"
  }

  function StatusName(s: Status): string {
    match s
    case Active => "active"
    case Archived => "archived"
  }

  datatype ChatConversation = ChatConversation(user: string, messages: seq<ChatMessage>, lastInteraction: int, status: Status)

  /** Every stored message passes the content validator. */
  predicate AllValid(cs: seq<ChatConversation>) {
    forall k, j :: 0 <= k < |cs| && 0 <= j < |cs[k].messages| ==> ValidContent(cs[k].messages[j].content)
  }

  /** Index of the user's first active conversation, or -1. */
  function FindActive(cs: seq<ChatConversation>, user: string): (i: int)
    ensures -1 <= i < |cs|
    ensures i >= 0 ==> cs[i].user == user && cs[i].status == Active
    ensures i >= 0 ==> forall j :: 0 <= j < i ==> !(cs[j].user == user && cs[j].status == Active)
    ensures i < 0 ==> forall j :: 0 <= j < |cs| ==> !(cs[j].user == user && cs[j].status == Active)
  {
    if cs == [] then -1
    else if cs[0].user == user && cs[0].status == Active then 0
    else
      var k := FindActive(cs[1..], user);
      if k < 0 then -1 else k + 1
  }

  /** `getActiveConversation`: the user's active conversation, created empty
      when there is none.  Returns the store and the conversation's index. */
  function GetActiveConversation(cs: seq<ChatConversation>, user: string, now: int): (r: (seq<ChatConversation>, nat))
    ensures r.1 < |r.0| && r.0[r.1].user == user && r.0[r.1].status == Active
    ensures FindActive(cs, user) >= 0 ==> r == (cs, FindActive(cs, user))
    ensures FindActive(cs, user) < 0 ==> r.0 == cs + [ChatConversation(user, [], now, Active)]
  {
    var i := FindActive(cs, user);
    if i >= 0 then (cs, i) else (cs + [ChatConversation(user, [], now, Active)], |cs|)
  }

  /** At most one active conversation per user. */
  predicate OneActivePerUser(cs: seq<ChatConversation>) {
    forall k, j :: 0 <= k < j < |cs| && cs[k].status == Active && cs[j].status == Active ==> cs[k].user != cs[j].user
  }

  /** The metadata of a `chatbot_interaction` activity: the question and the
      reply's text. */
  function InteractionMeta(message: string, reply: BotReply): map<string, string> {
    map["message" := message, "response" := reply.text]
  }

  /** `log'` is `log` with one successful `chatbot_interaction` activity of
      `user` appended, at `now`, recording the question and the reply. */
  predicate InteractionLogged(log: seq<Activity.Record>, log': seq<Activity.Record>, user: string,
                              message: string, reply: BotReply, now: int)
  {
    |log'| == |log| + 1 && log'[..|log|] == log &&
    var a := log'[|log|];
    a.typ == "chatbot_interaction" && a.status == "info" && a.timestamp == now &&
    a.details == "User asked: " + message && a.metadata == InteractionMeta(message, reply) &&
    (a.user.Some? <==> user != "") && (a.user.Some? ==> a.user == Some(user))
  }

  /** `handleChatMessage`: 400 for a missing or empty message; otherwise the
      reply, and for an authenticated user the exchange (user message, then
      bot reply) appended to their active conversation, its last interaction
      set to now, and a `chatbot_interaction` activity logged.  Returns the
      conversations, the activity log and the reply. */
  function HandleChatMessage(cs: seq<ChatConversation>, log: seq<Activity.Record>, user: Option<string>,
                             message: Option<string>, pick: nat, now: int)
    : (r: Reply<(seq<ChatConversation>, seq<Activity.Record>, BotReply)>)
    requires pick < 3
    ensures message.None? || message == Some("") <==> r == Err(400)
    ensures r.Ok? ==> r.value.2 == ProcessMessage(message.value, pick)
    ensures r.Ok? && user.None? ==> r.value.0 == cs && r.value.1 == log
    ensures r.Ok? && user.Some? ==>
      var (cs1, i) := GetActiveConversation(cs, user.value, now);
      |r.value.0| == |cs1| && r.value.0[i].user == user.value && r.value.0[i].status == Active &&
      r.value.0[i].lastInteraction == now &&
      r.value.0[i].messages == cs1[i].messages +
        [ChatMessage(UserRole, JsString(message.value), now), ChatMessage(BotRole, ReplyValue(r.value.2), now)] &&
      (forall j :: 0 <= j < |cs1| && j != i ==> r.value.0[j] == cs1[j]) &&
      InteractionLogged(log, r.value.1, user.value, message.value, r.value.2, now)
  {
    if message.None? || message == Some("") then Err(400)
    else
      var reply := ProcessMessage(message.value, pick);
      match user
      case None => Ok((cs, log, reply))
      case Some(u) =>
        var (cs1, i) := GetActiveConversation(cs, u, now);
        var c := cs1[i];
        var c' := c.(messages := c.messages +
                       [ChatMessage(UserRole, JsString(message.value), now), ChatMessage(BotRole, ReplyValue(reply), now)],
                     lastInteraction := now);
        var logged := Activity.LogActivity(log, user, "chatbot_interaction", "info", "User asked: " + message.value,
                                           InteractionMeta(message.value, reply), None, now);
        assert "chatbot_interaction" in Activity.ActivityTypes;
        Ok((cs1[i := c'], logged.log, reply))
  }

  /** Storing an exchange keeps every message valid and keeps at most one
      active conversation per user. */
  lemma HandleChatMessageKeepsInvariants(cs: seq<ChatConversation>, log: seq<Activity.Record>, user: Option<string>,
                                         message: Option<string>, pick: nat, now: int)
    requires pick < 3
    requires AllValid(cs) && OneActivePerUser(cs)
    requires HandleChatMessage(cs, log, user, message, pick, now).Ok?
    ensures var cs' := HandleChatMessage(cs, log, user, message, pick, now).value.0;
      AllValid(cs') && OneActivePerUser(cs')
  {
    if user.Some? {
      var u := user.value;
      var (cs1, i) := GetActiveConversation(cs, u, now);
      var r := HandleChatMessage(cs, log, user, message, pick, now).value;
      ActiveKeepsInvariants(cs, u, now);
      ReplyValueValid(r.2);
      ExchangeKeepsInvariants(cs1, r.0, i, [ChatMessage(UserRole, JsString(message.value), now), ChatMessage(BotRole, ReplyValue(r.2), now)]);
    }
  }

  /** Finding or creating the active conversation keeps both invariants. */
  lemma ActiveKeepsInvariants(cs: seq<ChatConversation>, u: string, now: int)
    requires AllValid(cs) && OneActivePerUser(cs)
    ensures var cs1 := GetActiveConversation(cs, u, now).0; AllValid(cs1) && OneActivePerUser(cs1)
  {
    var cs1 := GetActiveConversation(cs, u, now).0;
    if FindActive(cs, u) < 0 {
      forall k, j | 0 <= k < j < |cs1| && cs1[k].status == Active && cs1[j].status == Active
        ensures cs1[k].user != cs1[j].user
      {
        if j == |cs| { assert cs1[k] == cs[k]; }
      }
    }
  }

  /** Appending valid messages to one conversation, owner and status
      unchanged, keeps both invariants. */
  lemma ExchangeKeepsInvariants(cs1: seq<ChatConversation>, cs': seq<ChatConversation>, i: nat, extra: seq<ChatMessage>)
    requires AllValid(cs1) && OneActivePerUser(cs1)
    requires forall m :: m in extra ==> ValidContent(m.content)
    requires i < |cs1| == |cs'|
    requires cs'[i].user == cs1[i].user && cs'[i].status == cs1[i].status && cs'[i].messages == cs1[i].messages + extra
    requires forall j :: 0 <= j < |cs1| && j != i ==> cs'[j] == cs1[j]
    ensures AllValid(cs') && OneActivePerUser(cs')
  {
    forall k, j | 0 <= k < |cs'| && 0 <= j < |cs'[k].messages| ensures ValidContent(cs'[k].messages[j].content) {
      if k == i && j >= |cs1[i].messages| {
        assert cs'[k].messages[j] in extra;
      } else {
        assert cs'[k].messages[j] == cs1[k].messages[j];
      }
    }
    assert forall k :: 0 <= k < |cs'| ==> cs'[k].user == cs1[k].user && cs'[k].status == cs1[k].status;
  }

  lemma ReplyValueValid(r: BotReply)
    ensures ValidContent(ReplyValue(r))
  {
  }
}
