# team-labs-backend in Dafny

A model of a multi-tenant project-management backend. It covers:
- organizations, teams, projects, tasks and user stories, subtasks;
- comments, attachments and uploads;
- direct and group chat with reactions, and a help chatbot;
- invites, accounts and sign-in, usage limits and billing;
- the organization dashboard;
- the socket gateway, which mirrors every change in real time into per-organization, per-user, per-project, per-task and per-conversation rooms.

Each REST handler is a pure function from a store (the documents it reads) and the request to a status code and a new store. The store holds the gateway's outbox of emissions and the activity log, so what a handler announces and logs is part of its result. Inputs the handlers take from the environment are parameters:
- the current time (milliseconds since the epoch);
- generated ids;
- random draws;
- the calendar (year and month of an instant);
- the outcome of foreign calls (payment gateway verdict, Google token check, JWT signing).

One module per source component, each in its own file:

| file | module | source |
|---|---|---|
| common.dfy | Common | JavaScript string, number and array built-ins the handlers use |
| gateway.dfy | Gateway | socket.js |
| activity.dfy, paging.dfy | Activity, Paging | services/activityService.js, models/UserActivity.js |
| entitlements.dfy | UserModel, OrganizationModel, PremiumLimits | models/User.js, models/Organization.js, middleware/premiumLimits.js |
| payments.dfy | PaymentModel, Billing | models/Payment.js, controllers/paymentController.js |
| workspace.dfy, teams.dfy, projects.dfy | Workspace, Teams, Projects | routes/teamRoutes.js, routes/teamDetailsRoutes.js, routes/projectRoutes.js, routes/projectDetailsRoutes.js |
| tasks.dfy, subtasks.dfy | Tasks, Subtasks | routes/taskDetailsRoutes.js, routes/subtaskRoutes.js, models/TaskDetails.js, models/Subtask.js |
| comments.dfy, mentions.dfy, email_helpers.dfy | Comments, Mentions, EmailHelpers | routes/commentRoutes.js, services/emailService.js |
| attachments.dfy, uploads.dfy | Attachments, Uploads | routes/attachmentRoutes.js, routes/uploadRoutes.js |
| invites.dfy, auth.dfy, users.dfy, organizations.dfy | Invites, Auth, Users, Organizations | models/Invite.js, controllers/authController.js, controllers/userController.js, routes/userRoutes.js, controllers/organizationController.js |
| conversations.dfy, reactions.dfy, chatbot.dfy | Conversations, Reactions, Chatbot | routes/messageRoutes.js, models/Message.js, routes/chatbotRoutes.js, models/ChatConversation.js |
| dashboard.dfy, dates.dfy | Dashboard, Dates | routes/dashboardDetailsRoute.js, services/dashboardMetricsService.js, services/dateUtils.js |

Where a handler does something other than what it evidently means to do, the model keeps the behaviour as written. Next to it stands the intended behaviour, and a lemma shows an input on which the two differ (see "## Findings").

Four points where the code behaves differently from what it evidently intends, and the model follows the code:
- Removing several projects from a team resets to "no team" every listed project that is left without a team, including listed projects the team never held (routes/teamDetailsRoutes.js:611-642).
- A comment update whose body leaves out the content keeps the stored content. The update object sets the content to undefined, and Mongoose drops undefined keys (routes/commentRoutes.js:236).
- Reading the messages of a conversation that does not exist gives no 403. The participant test and the former-member window are both skipped for a missing conversation (routes/messageRoutes.js:545-563).
- A registration without a phone is refused as a duplicate once any user has no phone, as every Google account has. The duplicate query carries `{ phone: undefined }`, which the MongoDB driver sends as `null` under its default settings, and `null` matches a missing phone (controllers/authController.js:52).

## Model

| member | source | states |
|---|---|---|
| Gateway.RoomNameInjective | socket.js:377-400 | the org:, project:, task:, chat: and user: room names never collide, so distinct rooms have distinct names |
| Gateway.EmitTo | socket.js:377-400 | every emitTo* helper appends exactly one emission to its room once the server exists, and does nothing before |
| Gateway.EmitDashboardMetrics | services/dashboardMetricsService.js:104-115 | once the server is up the organization's room hears exactly one dashboard.metrics.updated, and before it nothing is sent |
| Gateway.AnnounceToOrg | routes/teamDetailsRoutes.js:168-185 | once the server is up the organization's room hears the handler's event and then its dashboard refresh, and before it nothing is sent |
| Gateway.InitSocket | socket.js:34-35 | initSocket leaves an initialized server, emits nothing, and returns the existing server unchanged on a second call |
| Gateway.InitSocketIdempotent | socket.js:34-35 | initializing twice is the same as initializing once |
| Gateway.GetIO | socket.js:372-375 | getIO answers the server exactly when it has been initialized, and fails otherwise |
| Gateway.NoEmissionBeforeInit | socket.js:377-400 | before initialization any number of fan-out calls leaves the server unchanged |
| Gateway.GetToken | socket.js:10-19 | the token is a truthy auth.token, else a truthy query.token or query.authToken, else the word after "Bearer " in the authorization header; there is none exactly when all three are missing |
| Gateway.BearerRoundTrip | socket.js:16-17 | a space-free token sent only as "Authorization: Bearer <t>" is extracted intact |
| Gateway.Admit | socket.js:21-32 | a connection is admitted exactly when a token is present, it verifies, and the decoded user exists; it is admitted as that user |
| Gateway.Connect | socket.js:64-83 | a user with an organization joins exactly org:<org> and user:<id> and online presence goes to org:<org>; a user without one joins nothing and nothing is emitted |
| Gateway.Disconnect | socket.js:85-101 | disconnecting emits offline presence to org:<org> when the user has an organization, and nothing otherwise |
| Gateway.ConnectThenDisconnect | socket.js:64-101 | a connection and its disconnection add exactly online then offline presence to the outbox |
| Gateway.JoinProject | socket.js:104-113 | project.join adds project:<id> only for a non-empty id of an existing project in the caller's organization; otherwise the socket is unchanged |
| Gateway.JoinTask | socket.js:124-135 | task.join resolves the task to its project and adds task:<id> under the same organization check; otherwise the socket is unchanged |
| Gateway.JoinConversation | socket.js:146-156 | conversation.join adds chat:<id> only when the caller is a participant; otherwise the socket is unchanged |
| Gateway.LeaveRoom | socket.js:115-121 | every *.leave removes just that room after a non-empty id check, and nothing else changes |
| Gateway.JoinThenLeaveProject | socket.js:104-121 | joining a project room not already held and leaving it restores the socket |
| Gateway.RelayTyping | socket.js:167-178 | chat.typing reaches chat:<id> except the sender with isTyping coerced to a boolean; a missing conversation id emits nothing |
| Gateway.CallInitiate | socket.js:181-222 | call.initiate emits call.incoming to user:<recipient> then call.initiated to chat:<conversation> exactly when all four fields are present, the caller is the authenticated user and a participant; otherwise nothing |
| Gateway.CallReply | socket.js:228-309 | call.answer and call.decline emit to the caller's user room and then the chat room, only when the sender is a participant |
| Gateway.CallEnd | socket.js:311-338 | call.end emits one call.ended to the chat room, participants only |
| Gateway.ForwardIceCandidate | socket.js:340-365 | an ICE candidate goes only to user:<to>, stamped with the sender as from, participants only |
| Gateway.NonParticipantCallsAreSilent | socket.js:181-365 | no call handler emits anything for a sender who is not a participant of the conversation |
| Activity.LogActivityIn | services/activityService.js:3-52 | one record is always appended; the call succeeds exactly when type, status and login method are in their enums, and then the record carries the given fields, a user iff a truthy user id and a login method iff one is given; otherwise an error record naming the original type is saved and the call throws |
| Activity.LogActivityTextMetadata | services/activityService.js:3-52 | a string passed as metadata cannot be stored in the Map-typed path, so the call always throws after saving one error record that names the original type |
| Activity.UnlistedTypesThrow | models/UserActivity.js:8-38 | logging task_unassign or team_status_update always throws, because neither name is in the type enum |
| Activity.IntendedTypesLog | models/UserActivity.js:8-38 | with both names added to the enum, both activities are logged as given |
| Activity.ForTask | routes/taskDetailsRoutes.js:905-906 | the task listing holds each activity whose metadata names the task exactly as often as the log does, and no other |
| Activity.ForTaskNewestFirst | routes/taskDetailsRoutes.js:905-906 | for a log appended in timestamp order the task listing is sorted newest first, as `.sort({ Timestamp: -1 })` returns it |
| Activity.ForUser | services/activityService.js:63-64 | the user listing holds each of the user's activities exactly as often as the log does, and no other |
| Activity.ForUserNewestFirst | services/activityService.js:63-64 | for a log appended in timestamp order the user listing is sorted newest first, as `.sort({ timestamp: -1 })` returns it |
| Activity.PageOf | services/activityService.js:57-76 | a page fails exactly when the skip (page-1)*limit is negative; otherwise it reports the total, the page and ceil(total/limit), with at most limit items |
| Activity.TaskActivityPages | routes/taskDetailsRoutes.js:900-917 | page and limit default to 1 and 10; for positive values a page is the window at skip (page-1)*limit, and consecutive pages list every activity once, in order |
| Activity.UserActivitiesPages | services/activityService.js:55-76 | the same windows for a user's activities, and a zero limit lists everything with a page count that is not a number |
| Activity.ForProject | services/activityService.js:86-89 | the project listing holds each activity whose metadata names the project exactly as often as the log does, and no other |
| Activity.ForProjectNewestFirst | services/activityService.js:86-89 | for a log appended in timestamp order the project listing is sorted newest first, as `.sort({ timestamp: -1 })` returns it |
| Activity.WithComment | services/activityService.js:93-100 | a comment_added activity whose comment exists gains the comment's text under metadata.comment; any other activity is unchanged |
| Activity.ProjectActivities | services/activityService.js:83-107 | the project's activities, each with the comment text attached where one exists |
| Paging.Limit | routes/taskDetailsRoutes.js:908 | .limit(n) keeps a prefix: everything for 0, otherwise at most abs(n) items |
| Paging.Skip | routes/taskDetailsRoutes.js:907 | .skip(n) drops exactly the first n items |
| Paging.OrDefault | routes/taskDetailsRoutes.js:900-901 | parseInt(q) \|\| d keeps a parsed non-zero value and otherwise falls back to the default |
| Paging.TotalPages | routes/taskDetailsRoutes.js:917 | ceil(total/limit) is the least page count that covers the total, and is not a number for a zero limit |
| Paging.WindowSlice | routes/taskDetailsRoutes.js:902-908 | a skip followed by a positive limit is a slice of the list |
| Paging.PagesTile | routes/taskDetailsRoutes.js:902-908 | the first n pages, read in order, are exactly the first n*limit items |
| Paging.HasNextIffMore | controllers/paymentController.js:162-176 | a page reports a next page exactly when items lie beyond it, and then the next page is not empty |
| UserModel.DaysUntilExpiry | models/User.js:358-365 | days left are 0 without an end date or past it, and otherwise the least whole number of days covering the time left, never negative |
| UserModel.DaysUntilExpiryMonotone | models/User.js:358-365 | a day later the count is at most one smaller and never larger |
| UserModel.CanCreateCases | models/User.js:367-386 | an active subscription allows every creation; otherwise projects, user stories and tasks are allowed exactly below 3, 3 and 20 |
| UserModel.IncrementUsage | models/User.js:388-397 | exactly the named user counter goes up by one, an unknown type changes nothing, and no other field changes |
| UserModel.ActivatePremium | models/User.js:399-406 | activation sets the flag, the premium status, the plan and both dates, and keeps the usage counters |
| UserModel.ActivatedIsActiveUntilEnd | models/User.js:352-356 | after activation the subscription is active exactly up to the end date, and projects can be created until then |
| UserModel.DeactivatePremium | models/User.js:408-415 | deactivation makes the account free with no plan and no dates, keeping the counters |
| UserModel.DeactivatedIsInactive | models/User.js:408-415 | a deactivated account is never active and has no days left, and deactivating twice is deactivating once |
| OrganizationModel.NewOrganization | models/Organization.js:3-23 | a new organization has all four counters at 0, isPremium false, plan free and is active |
| OrganizationModel.IncrementUsage | models/Organization.js:25-31 | project, task, userStory and team each raise only their own counter by one, and nothing else changes |
| OrganizationModel.UnknownTypeChangesNothing | models/Organization.js:25-31 | any other type leaves the organization unchanged |
| OrganizationModel.IncrementAllCounts | models/Organization.js:25-31 | over any series of increments the counters never decrease, and each grows by exactly the number of calls naming it |
| PremiumLimits.CheckLimit | middleware/premiumLimits.js:5-38 | a missing user id gives 400 and an unknown user 404 before any limit is read; a 403 reports the limit, the organization counter and the type, only for an inactive subscription with the counter at or above the limit |
| PremiumLimits.CheckLimitDecision | middleware/premiumLimits.js:20-33 | once user and organization are found, an active subscription passes and otherwise the request passes exactly when the organization counter is below 3, 3, 20 or 3 |
| PremiumLimits.Classify | middleware/premiumLimits.js:160-170 | the body is classified as project, then user story, then task, then team, first match winning |
| PremiumLimits.IncrementUsage | middleware/premiumLimits.js:146-179 | incrementing never blocks and never changes users or the set of organizations |
| PremiumLimits.IncrementUsageEffect | middleware/premiumLimits.js:148-178 | at most one counter of one organization goes up, by one, only for a classified body; every counter is otherwise unchanged |
| PaymentModel.ParseStatus | models/Payment.js:18-22 | a status is accepted exactly when it is one of pending, completed, failed and refunded |
| PaymentModel.ParsePlan | models/Payment.js:25-33 | a plan is accepted exactly when it is free, monthly or annual |
| PaymentModel.ParseMethod | models/Payment.js:37-40 | a payment method is accepted exactly when it is card or bank |
| PaymentModel.DaysRemaining | models/Payment.js:139-146 | days remaining are 0 unless the payment is completed and unexpired, and otherwise the least whole number of days covering the time left |
| PaymentModel.DaysRemainingIffActive | models/Payment.js:134-146 | days remain exactly while the payment is active and its end has not been reached |
| PaymentModel.MatchesIsActive | models/Payment.js:166-172 | the active-subscription query selects exactly the organization's active payments |
| PaymentModel.ActiveSubscription | models/Payment.js:166-172 | the active subscription is a matching payment with the greatest creation time, and none exists exactly when no payment matches |
| PaymentModel.EligibleIffWeekLeft | models/Payment.js:247-262 | a payment is eligible for a downgrade refund exactly when it is annual, completed, and more than six whole days remain |
| PaymentModel.RoundDiv | models/Payment.js:194 | Math.round of an exact quotient is the nearest integer with halves rounded up |
| PaymentModel.RefundAmount | models/Payment.js:188-194 | the refund is the amount times the share of days left, rounded, and is not a number when the period has no days |
| PaymentModel.CreateDowngradeRefund | models/Payment.js:185-233 | the original payment becomes refunded and one refunded record with the negated amount, linked to the original, is appended; nothing else changes |
| PaymentModel.RefundRetiresSubscription | models/Payment.js:197-233 | after the refund neither the original nor the refund record is ever active, so neither is the active subscription |
| Billing.StripSpaces | controllers/paymentController.js:611 | the number with every whitespace character removed |
| Billing.BrandOf | controllers/paymentController.js:610-619 | 4 is visa, 51 to 55 mastercard, 34 or 37 amex, 6 discover, each exactly, and anything else unknown |
| Billing.BrandIgnoresSpaces | controllers/paymentController.js:610-619 | whitespace anywhere in a card number does not change its brand |
| Billing.Last4 | controllers/paymentController.js:83-105 | the stored card or account number keeps only its last four characters |
| Billing.OrgUsers | controllers/paymentController.js:621-667 | the users of an organization are exactly those whose organization id names it |
| Billing.ActivateOrganizationPremium | controllers/paymentController.js:621-647 | activation fails for an unknown organization; otherwise the organization is premium with the plan and dates, and no user or organization is added or dropped |
| Billing.ActivateEffect | controllers/paymentController.js:621-647 | every user of the organization gets the same plan and dates and is active until the end; everyone and everything else is unchanged |
| Billing.DeactivateOrganizationPremium | controllers/paymentController.js:649-667 | deactivation makes the organization non-premium on the free plan without dates, keeping its counters |
| Billing.DeactivateEffect | controllers/paymentController.js:649-667 | afterwards no user of the organization is ever active and each is free with the usage kept; other users are unchanged |
| Billing.IsOrgAdmin | controllers/paymentController.js:12-17 | the requester is the administrator exactly when the organization exists and they are its owner |
| Billing.ProcessPayment | controllers/paymentController.js:19-152 | missing fields give 400 before anything is stored; the new record is completed exactly when the gateway approves; a refusal leaves premium untouched and does not answer 200; a 200 means the organization is premium |
| Billing.PremiumUsers | models/User.js:418-424 | the premium users are exactly the organization's users with an active subscription |
| Billing.PremiumUsersAfterActivation | controllers/paymentController.js:621-667 | until a paid period ends every user of the organization is reported premium, and after deactivation none is |
| Billing.GetSubscriptionStatus | controllers/paymentController.js:189-215 | a subscription is reported exactly when an active one of the organization exists, and the premium count never exceeds the organization's users |
| Billing.CancelSubscription | controllers/paymentController.js:220-257 | 404 without an active subscription, 403 unless the requester owns the organization; otherwise auto-renew is switched off and the whole organization is deactivated |
| Billing.RefundCheck | controllers/paymentController.js:292-340 | a downgrade to free refunds a completed unexpired payment; a downgrade to monthly refunds exactly an eligible annual payment and otherwise gives 400; a monthly payment needs no refund |
| Billing.DowngradeSubscription | controllers/paymentController.js:262-403 | the plan is checked (400), then the subscription (404), then the owner (403), changing nothing; success records 99 for 30 days with monthly premium, or deactivates for free |
| Billing.CalculateDowngradeRefund | controllers/paymentController.js:408-499 | the quote makes the same plan and subscription checks and reports the refund, the remaining and total days, and the amount of the active subscription |
| Billing.QuoteMatchesDowngrade | controllers/paymentController.js:430-483 | when a refund is quoted and the owner downgrades at the same instant, the recorded refund is the negated quoted amount |
| Billing.QuoteStricterThanDowngrade | controllers/paymentController.js:296-300 | the quote refuses monthly to monthly while the owner's downgrade goes ahead and records a new monthly payment |
| Billing.UpgradeSubscription | controllers/paymentController.js:504-573 | only annual is accepted (400), then 404 and 403 as for a downgrade; success appends an annual payment of 708 for 365 days and makes the organization annual premium |
| Billing.UpgradeBecomesActive | controllers/paymentController.js:535-556 | the upgrade's payment is the active subscription for the whole year it pays for, when it is the newest record |
| Billing.NewestFirst | models/Payment.js:175-180 | the history holds exactly the organization's payments |
| Billing.PaymentHistory | controllers/paymentController.js:157-184 | every page lists the newest limit payments, while hasPrev is page > 1 and hasNext is skip + returned < total |
| Billing.HistorySecondPageRepeatsFirst | controllers/paymentController.js:160-176 | with fifteen payments and ten per page, page two repeats page one and reports no next page |
| Billing.PaymentHistoryPaged | controllers/paymentController.js:160-176 | with the skip applied, a negative skip fails, hasPrev is page > 1 and hasNext is skip + returned < total |
| Billing.PagedHistoryTiles | controllers/paymentController.js:160-176 | with the skip applied, the pages list every payment exactly once, in order, and hasNext holds exactly when older payments remain |
| Tasks.Errors | models/TaskDetails.js:10-78 | Type is error-free exactly with a listed type; Name exactly when non-empty and at most 50 characters; Description errs exactly when present and too long; ParentID exactly when missing on a non-story; the project and creator exactly when missing; a Priority error implies a non-story or a given priority |
| Tasks.ValidIffNoErrors | models/TaskDetails.js:4-78 | a task saves exactly when no schema path reports an error |
| Tasks.CheckTaskTypeLimit | routes/taskDetailsRoutes.js:22-32 | a user story is gated on the story limit of CreatedBy (or the caller), any other non-empty type on the task limit of the Assignee (or the caller), and a missing type passes |
| Tasks.GateMatchesIncrement | middleware/premiumLimits.js:146-179 | the counter the gate checks is the one incrementUsage raises after the create, for every request body |
| Tasks.Build | routes/taskDetailsRoutes.js:38-48 | the stored task: Status 2 with a blanked assignee and date for a user story, Status 1 otherwise, active, Priority Medium by default, created now, CreatedBy taken from the given creator |
| Tasks.Find | routes/taskDetailsRoutes.js:582-583 | the lookup answers the first task with the id, and nothing exactly when no task has it |
| Tasks.CreateWith | routes/taskDetailsRoutes.js:35-187 | the create answers 201 exactly when the gate passes, the built task validates and its id is free; then the project room hears kanban.task.created and the dashboard of the body's organization, else the project's, is refreshed; otherwise the tasks and the outbox are unchanged |
| Tasks.CreateEffect | routes/taskDetailsRoutes.js:48-164 | a successful create appends exactly one valid, active task with its type's status, one creation activity about it, and exactly two emissions: kanban.task.created to its project room, then the dashboard refresh of the body's or the project's organization |
| Tasks.UserStoryCreateFails | routes/taskDetailsRoutes.js:40-49 | as written, a user story can never be created: CreatedBy is the blanked assignee, so the save fails and no task is stored |
| Tasks.UserStoryCreateIntended | routes/taskDetailsRoutes.js:40-49 | with the creator kept, a gated and well-formed user story is stored with Status 2, no assignee and its creator |
| Tasks.CreateAgreesOffUserStory | routes/taskDetailsRoutes.js:40-48 | for every other type the as-written and the corrected create coincide |
| Tasks.PatchStatus | routes/taskDetailsRoutes.js:577-680 | the status patch answers 404 exactly for an unknown task and then changes nothing; a success refreshes the project's organization dashboard, then tells the project room and the task room, in that order; a failure emits nothing |
| Tasks.PatchStatusEffect | routes/taskDetailsRoutes.js:596-658 | a history row keeps the task as it was; a valid task takes the new status, modified date and modifier with every other field and task unchanged, and the dashboard, project room and task room hear of it in that order; an invalid one is not saved and nothing is emitted |
| Tasks.AssignStatus | routes/taskDetailsRoutes.js:717-722 | status 1 becomes 2 on assign, 2 becomes 1 on unassign, every other status stays |
| Tasks.Reassigned | routes/taskDetailsRoutes.js:713-722 | the new assignee is stored, the date is the given one or now exactly when assigned and null otherwise, the status follows AssignStatus, and nothing else changes |
| Tasks.AssignThenUnassign | routes/taskDetailsRoutes.js:713-722 | assigning then unassigning an unassigned task at status 1 or 2 leaves it at status 1, unassigned and undated |
| Tasks.AssignIn | routes/taskDetailsRoutes.js:683-894 | the assign route answers 404 exactly for an unknown task and then changes nothing; a 200 saves the reassigned task in place and tells the task room, the project room and the project's organization dashboard, in that order; any other answer emits nothing |
| Tasks.AssignSaves | routes/taskDetailsRoutes.js:693-724 | whatever the activity enum, a found valid task is saved reassigned, with a history row, and no other task changes |
| Tasks.UnassignFailsAfterSave | routes/taskDetailsRoutes.js:751-765 | as written, an unassign answers 500 although the task was saved unassigned, and no room is told |
| Tasks.UnassignIntendedSucceeds | routes/taskDetailsRoutes.js:751-868 | with task_unassign accepted by the activity log, the unassign answers 200 and the task room, the project room and the organization's dashboard are told, in that order |
| Tasks.AssignSucceeds | routes/taskDetailsRoutes.js:683-892 | an assignment to a non-empty user answers 200, the same in both versions |
| Tasks.ApplyPatch | routes/taskDetailsRoutes.js:1036-1041 | each field present in the body replaces the stored one, and every other field is kept |
| Tasks.ApplyPatchIdempotent | routes/taskDetailsRoutes.js:1036-1041 | an empty patch changes nothing, and applying a patch twice equals applying it once |
| Tasks.PatchFields | routes/taskDetailsRoutes.js:1006-1141 | the field patch answers 404 exactly for an unknown task, and 200 exactly when the patched task validates; a 200 refreshes the project's organization dashboard, then tells the project room and the task room; any other answer emits nothing |
| Tasks.PatchFieldsEffect | routes/taskDetailsRoutes.js:1014-1043 | a history row is always written; a successful patch replaces exactly the found task by its patched form and a rejected one keeps every task |
| Tasks.Delete | routes/taskDetailsRoutes.js:926-1003 | the delete answers 404 exactly for an unknown task; a success removes one task, adds one history row, and tells the task's project room and then the project's organization dashboard |
| Tasks.DeleteRemovesOne | routes/taskDetailsRoutes.js:933-970 | exactly the found task is removed, every other task stays in order, and the history row keeps the removed task |
| Tasks.Snapshots | routes/taskDetailsRoutes.js:1159-1176 | one history row per task to delete, each holding that task |
| Tasks.BulkDelete | routes/taskDetailsRoutes.js:1144-1220 | 400 exactly for a missing or empty id list, 404 exactly when no task matches, nothing changes unless 200, and on 200 the kept tasks are exactly those not listed and fewer than before |
| Tasks.FilterSplit | routes/taskDetailsRoutes.js:1152-1196 | the found and the kept tasks together account for every task |
| Tasks.StatusText | routes/taskDetailsRoutes.js:143 | the email status text is Unknown exactly for a code outside 1 to 4 |
| Tasks.StatusTextRoundTrip | routes/taskDetailsRoutes.js:812 | each of the four known codes reads back from its text, and no other code has a text that reads back |
| Subtasks.FindTask | routes/subtaskRoutes.js:74 | the parent lookup answers an active task with the id, and nothing exactly when no active task has it |
| Subtasks.Find | routes/subtaskRoutes.js:133 | the subtask lookup answers an active subtask with the id, and nothing exactly when no active subtask has it |
| Subtasks.DeclaredDocument | models/Subtask.js:4-31 | a document built from TaskID_FK, Name and CreatedBy has neither of the schema's required TaskID and Title |
| Subtasks.CreateAsWritten | routes/subtaskRoutes.js:63-123 | as written, the create answers 400 exactly without a task id or a name, 404 exactly without an active parent, and never changes the store |
| Subtasks.CreateAsWrittenNeverSucceeds | routes/subtaskRoutes.js:78-85 | under the declared schema no request ever creates a subtask |
| Subtasks.Create | routes/subtaskRoutes.js:63-123 | with the fields the route writes, a request past the 400 and 404 checks appends exactly one incomplete, active subtask of that task, name and creator, and otherwise nothing |
| Subtasks.Renamed | routes/subtaskRoutes.js:137-142 | the name changes only when given, the modification stamps always, and nothing else |
| Subtasks.Update | routes/subtaskRoutes.js:127-190 | 404 exactly without an active subtask of that id; on success only that subtask is replaced by its renamed form |
| Subtasks.Toggled | routes/subtaskRoutes.js:205-216 | completion flips; the completer and date are set on completing and cleared on uncompleting; identity fields stay |
| Subtasks.Toggle | routes/subtaskRoutes.js:194-265 | 404 exactly without an active subtask; on success only that subtask is replaced by its toggled form |
| Subtasks.ToggleTwice | routes/subtaskRoutes.js:205-213 | two toggles restore the completion flag, with no completer for a subtask that was incomplete and the second toggler otherwise |
| Subtasks.Delete | routes/subtaskRoutes.js:269-285 | the delete is soft: 404 without an active subtask, otherwise only IsActive is cleared and the stamps set on that one subtask |
| Subtasks.DeletedIsGone | routes/subtaskRoutes.js:133-135 | once the only subtask with an id is deleted, update, toggle and delete of that id all answer 404 |
| Subtasks.List | routes/subtaskRoutes.js:11-59 | 404 exactly without an active task; otherwise exactly the task's active subtasks |
| Teams.CheckOwner | routes/teamDetailsRoutes.js:14-21 | the owner check answers the team exactly when it exists and the body's OwnerID is its owner, 404 exactly for an unknown team, and 403 otherwise |
| Teams.ResolveMember | routes/teamDetailsRoutes.js:146-151 | the member is the given UserID, else the user with the given e-mail; 400 exactly when neither is given and 404 exactly when the e-mail is unknown |
| Teams.AddMember | routes/teamDetailsRoutes.js:144-190 | 201 exactly for an owner adding a resolved user who is not yet a member, appending one active membership, changing nothing else, and sending team.member.added then the dashboard refresh to the team's organization room; 400 exactly for a missing user or an existing member |
| Teams.AddMemberKeepsUnique | routes/teamDetailsRoutes.js:154-155 | adding a member never creates a second membership of one user in one team |
| Teams.ToggleMember | routes/teamDetailsRoutes.js:193-222 | 200 exactly for the owner and an existing membership, whose active flag alone flips, with every other membership unchanged and exactly team.member.status.updated sent to the team's organization room |
| Teams.ToggleMemberTwice | routes/teamDetailsRoutes.js:196-200 | toggling a membership twice restores it, up to the editor and modification date |
| Teams.RemoveMember | routes/teamDetailsRoutes.js:344-388 | 200 exactly when the membership exists and is not the owner's, removing exactly it and sending team.member.removed then the dashboard refresh to the team's organization room; 400 exactly when it is the owner's |
| Teams.RemoveMemberKeepsOwner | routes/teamDetailsRoutes.js:355-359 | the team owner stays a member whatever single member is removed |
| Teams.RemoveMembers | routes/teamDetailsRoutes.js:508-588 | 200 exactly for a non-empty list without the owner, after which the memberships kept are exactly those not listed for this team and the organization room hears team.members.bulk_removed then the dashboard refresh; 400 for a missing or empty list or one naming the owner |
| Teams.RemoveMembersKeepsOwner | routes/teamDetailsRoutes.js:520-523 | the team owner survives every bulk removal |
| Teams.UpdateTeam | routes/teamDetailsRoutes.js:226-270 | 400 exactly without a name or owner id; on success only this team changes, taking the new name, keeping the old description and type when none is given, and the organization room hears team.updated then the dashboard refresh |
| Teams.UpdateTeamIdempotent | routes/teamDetailsRoutes.js:240-246 | repeating a successful update leaves the teams as the first update left them |
| Teams.ToggleStatusIn | routes/teamDetailsRoutes.js:274-341 | the toggle answers 200 exactly when the owner's team saves and the activity log accepts team_status_update; the flipped team is saved and team.status.updated then the dashboard refresh are sent either way; an unsaved team emits nothing |
| Teams.ToggleStatus | routes/teamDetailsRoutes.js:306-318 | as written, the toggle never answers 200 |
| Teams.ToggleStatusIntended | routes/teamDetailsRoutes.js:274-341 | with the activity name accepted, the toggle answers 200 exactly for the owner of a team that saves |
| Teams.ToggleStatusFailsAfterSave | routes/teamDetailsRoutes.js:280-341 | as written, a toggle is saved, announced with a dashboard refresh, logs two error activities and answers 500; the intended handler answers 200 with the same teams |
| Teams.DeleteTeamWith | routes/teamDetailsRoutes.js:420-504 | 200 exactly for the owner; the team and every membership of it go, nothing else, one team_delete activity is logged, and when announced the organization room hears team.deleted then the dashboard refresh |
| Teams.DeletedTeamNotAnnounced | routes/teamDetailsRoutes.js:455-477 | as written, a deleted team is never announced and no dashboard is refreshed; the intended handler sends team.deleted and then the dashboard refresh to its organization room and otherwise leaves the same store |
| Teams.Orphans | routes/teamDetailsRoutes.js:616-627 | the projects to reset are exactly the listed ones that no team is assigned to any more |
| Teams.ResetStatus | routes/teamDetailsRoutes.js:630-641 | exactly the listed projects go to status 1 with the modification stamps; every other project is unchanged |
| Teams.RemoveProjects | routes/teamDetailsRoutes.js:592-713 | 200 exactly for the owner with a non-empty list; the assignments kept are exactly those not of this team to a listed project, a listed project returns to status 1 exactly when no team is left on it, and the organization room hears team.projects.bulk_removed then the dashboard refresh |
| Teams.RemainingTeams | routes/teamDetailsRoutes.js:611-627 | after the removal a listed project has no team left exactly when every team it had was this one |
| Teams.LastLogins | routes/teamDetailsRoutes.js:44-56 | the last-login map holds only users asked about |
| Teams.LastLoginsAreLatest | routes/teamDetailsRoutes.js:50-56 | the map holds exactly the users with a successful login, each with the timestamp of one of their logins that none of their other logins exceeds |
| Teams.CreateTeamWith | routes/teamRoutes.js:51-126 | 400 exactly for a missing name or type, 401 exactly for a missing or unknown owner, 403 when the limit is reached; on 201 one inactive team in the owner's organization and one active owner membership are appended and the owner's organization room hears team.created then the dashboard refresh |
| Teams.TeamLimitNeverAdvances | middleware/premiumLimits.js:111-179 | as written, creating a team never changes what the team limit answers for any user; the intended handler raises the owner organization's team counter by one |
| Teams.ListTeams | routes/teamRoutes.js:25-45 | Admin sees every team; anyone else sees exactly the teams they are an active member of |
| Teams.RequestToJoin | routes/teamRoutes.js:157-208 | 400 exactly without a user, 200 with nothing changed exactly when a request is already pending, and 201 appending one pending request and sending exactly team.join_request.created to the team's organization room otherwise |
| Teams.RequestToJoinKeepsOnePending | routes/teamRoutes.js:164-168 | at most one request stays pending per user and team |
| Teams.Respond | routes/teamRoutes.js:222-290 | 404 exactly for an unknown request or one for another team; on 200 only that request records the answer; an accepted one appends one active membership for the requester and sends team.join_request.accepted then the dashboard refresh, a rejected one sends only team.join_request.rejected |
| Teams.Accept | routes/teamRoutes.js:222-258 | a successful accept adds exactly one active membership |
| Teams.Reject | routes/teamRoutes.js:262-290 | a reject never changes the memberships |
| Projects.ListProjects | routes/projectRoutes.js:14-38 | an Admin gets exactly the projects they own; anyone else exactly the projects an active assignment links to a team they are an active member of |
| Projects.CreateProject | routes/projectRoutes.js:41-98 | past the limit, 400 exactly without a name or organization, 401 exactly without an owner; on 201 one active status-1 project with the given fields is appended, the usage counter is raised and the body's organization dashboard is refreshed; any other answer emits nothing |
| Projects.CreateProjectCounts | middleware/premiumLimits.js:146-179 | a created project raises its owner organization's project counter by one and no other counter |
| Projects.UpdateProject | routes/projectRoutes.js:102-170 | 404 exactly for an unknown project; on 200 only that project changes: a truthy name replaces, a present description or status replaces, a given finish date is stored and a falsy one cleared, the modification time is now, and the organization, owner, creation date, modifier and active flag are kept; its organization's dashboard is refreshed; any other answer emits nothing |
| Projects.UpdateProjectIdempotent | routes/projectRoutes.js:117-121 | repeating a successful update leaves the projects as one update did |
| Projects.ToggleProject | routes/projectRoutes.js:175-192 | 404 exactly for an unknown project; otherwise only its active flag flips and its modified date is stamped |
| Projects.AddTeam | routes/projectDetailsRoutes.js:116-220 | 400 exactly without a team or for a team already on the project, 404 for an unknown project; on 201 one active assignment is appended and the project moves to status 2 exactly when it had no team and was at status 1 |
| Projects.ToggleAssignment | routes/projectDetailsRoutes.js:225-238 | 404 exactly without the assignment; otherwise only its active flag flips |
| Projects.RemoveTeam | routes/projectDetailsRoutes.js:241-258 | 404 exactly without the assignment; otherwise exactly that assignment is deleted and the project keeps its status |
| Projects.AddThenRemoveKeepsStatus | routes/projectDetailsRoutes.js:156-168 | adding the first team and removing it restores the assignments but a promoted project stays at status 2 |
| Projects.ProjectMembers | routes/projectDetailsRoutes.js:92-96 | the project members are listed each once |
| Projects.ProjectMembersExact | routes/projectDetailsRoutes.js:92-96 | a user is listed exactly when they are an active member of some team assigned to the project |
| Invites.PreSave | models/Invite.js:25-30 | the save hook turns exactly a Pending invite past its expiry into Expired, keeps every other status and field, and never saves a Pending invite that has expired |
| Invites.NewInviteLifetime | models/Invite.js:7-22 | a new invite is Pending with no acceptance, and a save at time t keeps it Pending exactly when t is within seven days of its creation |
| Invites.ListInvites | controllers/userController.js:137-158 | listing marks as Expired exactly the organization's Pending invites past their expiry, keeps every other invite, and answers exactly the organization's invites, none of them Pending and expired |
| Invites.ListInvitesIdempotent | controllers/userController.js:145-151 | listing twice at the same instant changes nothing the second time |
| Invites.InviteIndex | controllers/userController.js:164 | the lookup answers an invite with the id, and nothing exactly when none has it |
| Invites.Resend | controllers/userController.js:161-193 | 404 exactly for an unknown invite, 200 exactly for a Pending unexpired one, which alone gets the new token and a seven-day expiry; otherwise nothing changes |
| Invites.Delete | controllers/userController.js:196-215 | 404 exactly for an unknown invite, 400 exactly for an accepted one; otherwise exactly that invite is removed |
| Invites.DeleteKeepsAccepted | controllers/userController.js:205-207 | no delete ever loses an accepted invite |
| Invites.InviteUser | controllers/userController.js:218-247 | 400 exactly without an e-mail, 409 exactly when a live invite for that e-mail and organization exists; 201 appends exactly the new Pending invite, and every other answer changes nothing |
| Invites.InviteUserKeepsOneLive | controllers/userController.js:223-232 | inviting keeps at most one live invite per e-mail and organization |
| Invites.AcceptWith | controllers/authController.js:62-80 | the invite lookup fails with 400 exactly when no invite is usable for the token and e-mail; on success one usable invite becomes Accepted and supplies the organization |
| Invites.ExpiredInviteAccepted | controllers/authController.js:63-67 | as written, a Pending invite past its expiry that has not been swept is still accepted; with the expiry test it is refused |
| Invites.AcceptIntendedOnlyLive | controllers/authController.js:62-80 | with the expiry test, an accepted invite is always one that was Pending and unexpired |
| Auth.AccountBy | controllers/authController.js:755-763 | the lookup by id or by username answers a user with that key, and nothing exactly when none has it |
| Auth.LoginIndex | controllers/authController.js:135-140 | the login lookup answers a user whose e-mail or username matches, and nothing exactly when none does |
| Auth.Register | controllers/authController.js:31-125 | 400 exactly for a clash with an existing user (same e-mail, username or phone, where a missing phone matches every user without one) or an invite token that selects no usable invite; on 201 one user is appended with the given identity, role User and the default extension, taking the invite's organization and needing more details exactly when no organization came with it |
| Auth.PhonelessRegistrationClashes | controllers/authController.js:52-56 | once any account has no phone, every registration without a phone is refused with 400 and changes nothing |
| Auth.RegisterNeedsDetails | controllers/authController.js:88-111 | with well-formed invites, a registered user needs more details exactly when no invite token was given |
| Auth.RegisterKeepsUniqueIdentities | controllers/authController.js:51-56 | registration keeps usernames and e-mails unique |
| Auth.SessionTimeout | controllers/authController.js:170 | the reported timeout is 30 exactly when none is stored or the stored one is 0 or 30 |
| Auth.Login | controllers/authController.js:130-188 | 200 exactly when the matched user has the given password, which marks them Active with a login activity and answers a second-factor request exactly when 2FA is on; otherwise 401 with a login_failed activity naming the matched user |
| Auth.RegisterThenLogin | controllers/authController.js:31-188 | a freshly registered user who signs in with the same username and password gets a session with a 30-minute timeout and login notifications on |
| Auth.GoogleNamesSplitFullName | controllers/authController.js:294-295 | without given and family names, the first name is the full name up to its first space and the two names put back together give it whole |
| Auth.GoogleLogin | controllers/authController.js:211-344 | an unverified e-mail answers 500 with two records, the error record of the failed log call and then login_failed with provider google; 200 exactly for a verified known e-mail; 201 creates one user with the Google id, a derived username and the split names; a verified 500 leaves the users unchanged with one logged failure |
| Auth.GoogleLoginIntended | controllers/authController.js:225-228 | logged with no metadata and login method google, an unverified e-mail answers 400 with one login_failed record and no account change; verified e-mails are handled as written |
| Auth.UnverifiedGoogleLoginFails | controllers/authController.js:225-228 | for every unverified e-mail the handler answers 500 as written and 400 as intended, with one more record as written |
| Auth.GoogleSignUp | controllers/authController.js:260-344 | for an e-mail no account has: 400 only for a given invite token that is refused, leaving the store as it was; 201 appends exactly one account with the profile's e-mail, Google id, names and derived username; 500 keeps the accounts with a logged failure, and an invalid uninvited account always ends in 500 |
| Auth.SingleWordNameFails | controllers/authController.js:294-310 | a Google sign-up with a one-word name and no family name gets an empty last name, which the schema refuses, so it answers 500 |
| Auth.UpdateUserStatus | controllers/authController.js:745-791 | 400 exactly for a status outside the enum, 404 exactly for an unknown user; on 200 only that user's status changes and their organization room is told |
| Auth.UpdateUserStatusKeepsEnum | controllers/authController.js:751-754 | every stored status stays within the enum |
| Auth.SecuritySettingsAsWritten | controllers/authController.js:706-719 | as written, login notifications are always reported on |
| Auth.SecuritySettings | controllers/authController.js:706-719 | with the login response's test, the reported flag is the stored preference |
| Auth.SecuritySettingsIgnoreOptOut | controllers/authController.js:713 | a user who opted out is reported as opted in as written; the corrected report agrees with what login answers |
| Auth.UpdateSecuritySettingsWith | controllers/authController.js:724-740 | the update always answers 200; with undeclared paths nothing is stored, with declared paths exactly that user's two preferences change |
| Auth.SavedSettingsIgnored | controllers/authController.js:728-733 | as written, saved preferences never change the user; with the paths declared the next session reports what was saved |
| Auth.Generate2FAAsWritten | controllers/authController.js:553-585 | as written, every call answers 500 and stores nothing |
| Auth.Generate2FA | controllers/authController.js:553-585 | corrected, 404 exactly for an unknown user; otherwise only that user's temporary secret is set |
| Auth.Generate2FANeverStores | controllers/authController.js:565-573 | a known user never gets a temporary secret as written, and gets it with the fix |
| Auth.ForgotPassword | controllers/authController.js:796-832 | 400 exactly without an identifier, 404 exactly for an unknown user; on 200 exactly one valid record with a 24-hour expiry is appended under the new key |
| Auth.ResetIndex | controllers/authController.js:840 | the lookup by key answers a record with that key, and nothing exactly when none has it |
| Auth.CheckKey | controllers/authController.js:837-855 | the first record with the key decides: unknown, used exactly when explicitly invalidated, expired exactly when its expiry is before now |
| Auth.VerifyResetPassword | controllers/authController.js:837-855 | verification answers 200 exactly for a valid key and 201 otherwise |
| Auth.CheckStrong | controllers/authController.js:883-886 | the scan accepts exactly the passwords of at least eight characters with a lowercase letter, an uppercase letter, a digit and a listed special character |
| Auth.ValidResetIndex | controllers/authController.js:866 | the reset uses a record with the key whose IsValid is true, and none exactly when there is no such record |
| Auth.ResetPassword | controllers/authController.js:860-899 | the tests run in order; 404 exactly when the record's user is missing, 200 exactly when everything passes, which stores the new password and invalidates the record, and every failure changes nothing |
| Auth.ResetSingleUse | controllers/authController.js:888-893 | after a successful reset the same key is refused and verification reports it as used |
| Auth.ForgotThenReset | controllers/authController.js:796-899 | a link requested for an existing user and used within its lifetime with a strong new password resets that user's password |
| Auth.ForgotPasswordAsWritten | controllers/authController.js:796-832 | as written, the request answers 400 exactly without an identifier, else 404 or 500, and never changes the store |
| Auth.VerifyResetPasswordAsWritten | controllers/authController.js:837-855 | as written, verification always answers 500 |
| Auth.ResetPasswordAsWritten | controllers/authController.js:860-899 | as written, the reset answers 400 without inputs and 500 otherwise, changing nothing |
| Auth.RecoveryUnavailable | controllers/authController.js:816 | as written, for inputs the recovery round trip accepts, every step fails |
| Auth.StateAlphabetIsAlphanumeric | controllers/authController.js:912 | the state alphabet is exactly the 62 ASCII letters and digits |
| Auth.Pick | controllers/authController.js:915 | each draw picks a position inside the alphabet |
| Auth.RandomString | controllers/authController.js:911-918 | the random string has one character per draw, each from the alphabet |
| Auth.GitHubState | controllers/authController.js:902-920 | 400 exactly without a user id; otherwise the state is the random string of the draws |
| Auth.EveryStringReachable | controllers/authController.js:911-918 | every string over the alphabet is produced by some draws |
| Users.ProfileIndex | controllers/userController.js:17-20 | the lookup answers a user with the id, and nothing exactly when none has it |
| Users.Fallback | controllers/userController.js:23-31 | a truthy new value replaces the field and anything else keeps the current one |
| Users.UpdateUser | controllers/userController.js:13-77 | 404 exactly for an unknown user; on 200 only that user changes, each editable field taking the new value exactly when it is truthy, while e-mail, role, status and organization stay, and the organization room is told when there is one |
| Users.UpdateUserKeepsValid | controllers/userController.js:22-33 | a known valid user always updates successfully |
| Users.UpdateUserIdempotent | controllers/userController.js:22-33 | sending the same edit twice changes nothing the second time |
| Users.UsageReport | routes/userRoutes.js:10-46 | as written, 404 exactly for an unknown user; the report shows the user's own counters, and can-create holds exactly for a premium user or a counter below its limit |
| Users.UsageReportIntended | middleware/premiumLimits.js:5-108 | corrected, the report shows the organization's counters and can-create by the middleware's rule |
| Users.ReportIgnoresOrganizationCounters | routes/userRoutes.js:20-38 | as written, counting a creation leaves the report unchanged, and a user whose organization is at its project limit is told a project can be created while the middleware refuses it |
| Users.IntendedReportAgreesWithLimits | middleware/premiumLimits.js:5-108 | each corrected can-create flag holds exactly when the matching limit check lets the request through |
| Users.RemoveFromOrg | routes/userRoutes.js:49-119 | 404 exactly for an unknown user; otherwise exactly the user's memberships go, the user's organization becomes null, the count reports the memberships removed, and org.member.removed reaches the former organization's room |
| Users.RemoveFromOrgTwice | routes/userRoutes.js:69-87 | after a removal the user belongs to no team, so a second removal removes nothing |
| Organizations.IdFromDraw | controllers/organizationController.js:6-14 | each draw gives a six-digit id, the floor of 100000 plus the draw times 900000 |
| Organizations.EveryIdDrawable | controllers/organizationController.js:6-14 | every six-digit number is produced by some draw |
| Organizations.GenerateOrganizationID | controllers/organizationController.js:6-14 | the search returns the id of the first draw that is not taken, and every earlier draw was taken |
| Organizations.Ids | controllers/organizationController.js:11 | the ids in use are exactly the organizations' ids |
| Organizations.MakeAdmin | controllers/organizationController.js:32 | exactly the creator's role becomes Admin, and nothing changes when the creator is unknown |
| Organizations.CreateOrganization | controllers/organizationController.js:17-40 | 400 exactly for a missing or blank name, changing nothing; on 201 one organization with the trimmed name, the creator as owner, a fresh id and zero counters is appended, the creator becomes Admin, and distinct ids stay distinct |
| Conversations.ParseType | models/Message.js:15 | a message type is accepted only if it is one of the enum's names, and parses back to that name |
| Conversations.ParseTypeName | models/Message.js:15 | every type's name parses back to that type |
| Conversations.FindConversation | routes/messageRoutes.js:640-642 | the lookup answers the first conversation with the id, or -1 exactly when none has it |
| Conversations.MarkAllReadClears | routes/messageRoutes.js:641-663 | after mark-read nothing in that conversation is unread for the reader |
| Conversations.MarkAllReadKeepsOthers | routes/messageRoutes.js:650-655 | marking read for one user changes no other user's unread count in any conversation |
| Conversations.MarkRead | routes/messageRoutes.js:638-680 | 404 exactly for an unknown conversation, 403 exactly for a non-participant; otherwise the conversations are unchanged and the reader's unread count, returned and recomputed, is 0 |
| Conversations.FirstLeave | routes/messageRoutes.js:509-510 | the first leave record of the user is found, and none exactly when the user never left |
| Conversations.MessagesWindow | routes/messageRoutes.js:545-556 | a participant reads without a window, a former member up to their first leave time, anyone else gets 403, and an unknown conversation gets no window |
| Conversations.AssetsWindow | routes/messageRoutes.js:504-515 | the assets route answers 404 exactly for an unknown conversation and otherwise the same window as the messages route |
| Conversations.Visible | routes/messageRoutes.js:557-563 | the listed messages are exactly the conversation's messages inside the window |
| Conversations.ReadWindowForFormerMember | routes/messageRoutes.js:545-556 | a former member reads exactly the conversation's messages created up to their first leave, and a stranger is refused |
| Conversations.InboxEmissions | routes/messageRoutes.js:628 | one chat.inbox.updated emission per participant, to that participant's user room, in order |
| Conversations.InboxFanout | routes/messageRoutes.js:628 | the inbox fan-out appends exactly those emissions once the server exists and does nothing before |
| Conversations.Preview | routes/messageRoutes.js:601 | the preview is the text when there is one, else Image, Video or empty by type |
| Conversations.SendMessage | routes/messageRoutes.js:570-635 | 404 exactly for an unknown conversation, 403 exactly for a non-participant; on success one message of the resolved type is appended, read by and sent from the sender unless it is a system message, and the preview is updated |
| Conversations.SendAnnouncements | routes/messageRoutes.js:605-630 | a send announces the message to the chat room and then notifies every participant's user room once, in order |
| Conversations.FindDirect | routes/messageRoutes.js:92-96 | the direct lookup answers a non-group conversation of exactly the two users in the organization, and -1 exactly when none exists |
| Conversations.DirectConversation | routes/messageRoutes.js:83-125 | 400 for an unknown user or one in another organization; otherwise the existing direct conversation is returned unchanged, or exactly one new one of the two users is appended, even a user with themself; 500 exactly when none exists and the organization id is missing or empty |
| Conversations.DirectConversationIdempotent | routes/messageRoutes.js:92-106 | asking again returns the same conversation and changes nothing |
| Conversations.Known | routes/messageRoutes.js:133-137 | the known ids are exactly the requested ids of existing users, without new duplicates |
| Conversations.AddedNotes | routes/messageRoutes.js:254-262 | one "added to the group" system message per added user, in order |
| Conversations.AnnounceNotes | routes/messageRoutes.js:160-170 | each added user's message is announced once to the chat room, and nothing before initialization |
| Conversations.Invitees | routes/messageRoutes.js:133-148 | the other members are exactly the distinct known requested ids other than the creator |
| Conversations.InviteesInOrg | routes/messageRoutes.js:134-137 | the organization test over the invitees agrees with the test over all requested ids |
| Conversations.CreateGroup | routes/messageRoutes.js:128-195 | 400 exactly when a requested user is in another organization, then 500 exactly when the organization id is missing or empty; otherwise one group is appended with the creator first and as only admin, the name defaulting to New Group, and one system message per invitee |
| Conversations.AddMembers | routes/messageRoutes.js:213-300 | 404 exactly unless the conversation is a group; on success the participants are the old ones together with the known new ones, without duplicates, with one system message per user not already present |
| Conversations.AddMembersTwice | routes/messageRoutes.js:218-262 | repeating the same add adds no one and stores no further message |
| Conversations.Departures | routes/messageRoutes.js:322-328 | the leave records are exactly the removed participants at the removal time |
| Conversations.RemovedNotes | routes/messageRoutes.js:330-336 | one system message per leave record |
| Conversations.RemoveMembers | routes/messageRoutes.js:305-355 | 404 exactly unless a group, 403 exactly for a non-participant requester; otherwise the removed ids leave in order, each gets a leave record and a system message |
| Conversations.RemovedMemberReadsUntilRemoval | routes/messageRoutes.js:310-343 | a removed member who had never left reads afterwards exactly the messages created up to the removal |
| Conversations.LeaveAfter | routes/messageRoutes.js:385 | with no earlier record, the first leave record is the appended one |
| Conversations.LeaveCheck | routes/messageRoutes.js:361-378 | the leave checks answer 404, 403 and 400 in that order, each exactly under its condition |
| Conversations.LeaveGroup | routes/messageRoutes.js:361-450 | as written, a leave removes the caller, records the leave and stores the system message, but only the membership update reaches the chat room |
| Conversations.LeaveGroupIntended | routes/messageRoutes.js:386-440 | corrected, the system message is announced and every remaining participant's inbox is updated before the membership update |
| Conversations.LeaveAnnouncementsLost | routes/messageRoutes.js:390 | as written, leaving a group of three makes one announcement where the corrected handler makes six |
| Conversations.LeaverReadsUntilLeaving | routes/messageRoutes.js:385 | a first-time leaver reads afterwards exactly the messages created up to the leave |
| Conversations.ReactToMessage | routes/messageRoutes.js:697-727 | 404 exactly for an unknown message; 500 exactly when the update would store an empty emoji; otherwise only that message's reactions change, by the one-reaction-per-user rule |
| Conversations.FindMessage | routes/messageRoutes.js:701-702 | the lookup answers a message with the id, or -1 exactly when none has it |
| Reactions.FindByUser | routes/messageRoutes.js:706 | the lookup answers the user's first reaction, or -1 exactly when the user has none |
| Reactions.ReactKeepsOnePerUser | routes/messageRoutes.js:707-720 | reacting keeps at most one reaction per user |
| Reactions.ReactOutcome | routes/messageRoutes.js:707-720 | afterwards the user's reaction is gone if it was the same emoji and is exactly the new emoji otherwise |
| Reactions.ReactLeavesOthers | routes/messageRoutes.js:707-720 | every other user's reactions are untouched, in content and order |
| Reactions.ReactTwiceRestores | routes/messageRoutes.js:707-720 | reacting twice with one emoji, starting without a reaction, restores the list |
| Chatbot.FirstTopic | routes/chatbotRoutes.js:98-126 | the topic is that of the first rule with a phrase in the message, and none exactly when no rule matches |
| Chatbot.ClassifyLower | routes/chatbotRoutes.js:77-158 | a message is a greeting exactly when it starts with a greeting word, and a goodbye exactly when it starts with a goodbye word and not a greeting word |
| Chatbot.Respond | routes/chatbotRoutes.js:73-158 | a greeting answers one of the canned greetings with the Login, Register and Learn More links, a goodbye one of the canned goodbyes, a help intent its topic's answer, and the rest the fallback |
| Chatbot.ClassifyIgnoresCase | routes/chatbotRoutes.js:78 | two messages equal up to letter case are classified alike |
| Chatbot.GreetingWins | routes/chatbotRoutes.js:81-90 | a message starting with Hi is a greeting whatever follows |
| Chatbot.HowToRegistrationFirst | routes/chatbotRoutes.js:98-104 | a how-to question mentioning sign-up is about registration before any later topic |
| Chatbot.HowToFallsThrough | routes/chatbotRoutes.js:98-157 | a how-to question with no topic word falls through to the what-is rules and then to the fallback |
| Chatbot.ValidContentCases | models/ChatConversation.js:13-24 | null, undefined, booleans, numbers and arrays are refused as content, an object with a text and no links or null links is accepted, and one with non-array links is refused |
| Chatbot.ReplyValue | models/ChatConversation.js:13-24 | every bot reply is stored as content the validator accepts |
| Chatbot.FindActive | routes/chatbotRoutes.js:162-165 | the lookup answers the user's first active conversation, or -1 exactly when there is none |
| Chatbot.GetActiveConversation | routes/chatbotRoutes.js:161-175 | the answer is the user's active conversation, unchanged if one exists and a new empty one appended otherwise |
| Chatbot.HandleChatMessage | routes/chatbotRoutes.js:178-216 | 400 exactly for a missing or empty message; otherwise the classifier's reply, and for a signed-in user the user message and the reply appended to their active conversation, its last interaction set to now, nothing else in the conversations changing, and one chatbot_interaction activity with the question and reply logged |
| Chatbot.HandleChatMessageKeepsInvariants | routes/chatbotRoutes.js:178-216 | storing an exchange keeps every message valid and at most one active conversation per user |
| Mentions.NameRun | services/emailService.js:45 | the name after an @ is the longest run of letters and underscores |
| Mentions.RawTokenize | services/emailService.js:44-61 | scanning a text into plain characters and mentions and printing the tokens gives back the text |
| Mentions.TokenizeRaw | services/emailService.js:44-61 | printing well-formed tokens and scanning the result gives back the tokens |
| Mentions.TokenizeWellFormed | services/emailService.js:44-61 | every scan yields well-formed tokens |
| Mentions.HeadOfTokenize | services/emailService.js:45-49 | a scan is empty exactly for the empty text, and starts with a mention exactly where an @ is followed by a name character |
| Mentions.Display | services/emailService.js:49 | the display name is the name with every underscore turned into a space, and nothing else changed |
| Mentions.DisplayAll | services/emailService.js:49 | each mention is displayed by that rule, in order |
| Mentions.ParseMentionsCount | services/emailService.js:44-52 | there is one parsed mention for every @ directly followed by a name character |
| Mentions.ParsedMentionsShape | services/emailService.js:44-52 | every parsed mention is non-empty and made of letters and spaces |
| Mentions.HighlightWithoutMentions | services/emailService.js:55-61 | text without mentions is left exactly as it is |
| Mentions.HighlightIsTokenwise | services/emailService.js:44-61 | one token reading of the text prints back to it, yields the parsed names, and is what the highlighter prints with spans in place of the mentions and every other character unchanged |
| EmailHelpers.TimeAgoParts | services/emailService.js:18-27 | below a minute the raw (possibly negative) seconds, then whole minutes below an hour, whole hours below a day, and whole days, each the floor of the elapsed seconds by its unit |
| EmailHelpers.TimeAgo | services/emailService.js:18-27 | the label is empty exactly when there is no date |
| EmailHelpers.Extension | services/emailService.js:31 | the extension is the text after the last dot, or the whole name when there is none |
| EmailHelpers.ExtensionOfJoin | services/emailService.js:31 | a name ending in a dot and a dot-free extension has exactly that extension |
| EmailHelpers.IconOf | services/emailService.js:32-40 | the icon is that of a table row listing the extension, and the paper clip when no row lists it |
| EmailHelpers.UnknownExtensionIsPaperclip | services/emailService.js:40 | an unlisted extension gets the paper clip whatever its case |
| EmailHelpers.IconIgnoresCaseAndBase | services/emailService.js:30-41 | the icon depends only on the lower-cased text after the last dot |
| EmailHelpers.PriorityBadge | services/emailService.js:96-101 | High is red, Low green and everything else amber, labelled with the priority itself |
| EmailHelpers.StatusBadge | services/emailService.js:104-110 | 1 is Not Assigned, 3 In Progress, 4 Completed and every other status Assigned, the violet one |
| EmailHelpers.Until | services/emailService.js:68 | the longest prefix without the given character |
| EmailHelpers.Spaces | services/emailService.js:68 | the longest prefix of white space |
| EmailHelpers.ValueAt | services/emailService.js:68 | a value match consumes at least one and at most all characters |
| EmailHelpers.EntryAt | services/emailService.js:68 | a field match consumes at least one and at most all characters |
| EmailHelpers.ParseTaskDetails | services/emailService.js:64-80 | a missing or empty fragment gives no fields |
| EmailHelpers.ParseFragment | services/emailService.js:64-80 | the description and the assigned date read by their own patterns win over the scan, trimmed |
| EmailHelpers.ParseFragmentOthers | services/emailService.js:70-72 | every other field is the last value the general scan read for it |
| EmailHelpers.TrimAfterSpaces | services/emailService.js:68-71 | skipping leading white space does not change the trimmed value |
| EmailHelpers.ValueAtRendered | services/emailService.js:68 | a rendered value is read up to its break and trims to the written value |
| EmailHelpers.EntryAtKey | services/emailService.js:68 | a field name up to the first colon followed by the closing tag hands the rest to the value part |
| EmailHelpers.EntryAtRendered | services/emailService.js:68 | a rendered field is matched whole, giving its name and its trimmed value |
| EmailHelpers.ScanRendered | services/emailService.js:64-72 | a fragment made of well-formed fields is read back field by field with trimmed values |
| EmailHelpers.ReadAssignedDate | services/emailService.js:74-75 | whatever the assigned-date pattern reads is what the parser reports, trimmed |
| EmailHelpers.AssignedDateWithoutBreak | services/emailService.js:73-75 | the assigned date is read even when no break follows it |
| EmailHelpers.SpacedTrim | services/emailService.js:68-71 | skipping the spaces after the tag leaves the trimmed value unchanged |
| Comments.FindComment | routes/commentRoutes.js:158-161 | the first comment with the id, and not found exactly when no comment has it |
| Comments.MentionMailsReachMentioned | routes/commentRoutes.js:64-102 | every mention mail quotes the comment and goes to a user a mentioned name finds, and every name that finds a user with an address gets one |
| Comments.CreateCheck | routes/commentRoutes.js:29-36 | the input passes exactly when author and content are given and the content is not all white space, and fails with 400 otherwise |
| Comments.CreateComment | routes/commentRoutes.js:24-143 | 400 for bad input, then 404 exactly when the task is missing, then 500 exactly when the trimmed content exceeds 1000 characters; on success the trimmed comment is appended, tasks are unchanged, the mention mails are queued, one comment_added activity is logged for the task's creator and task.comment.created goes to the task room and then the project room |
| Comments.AnnounceCreated | routes/commentRoutes.js:126-137 | the comment's creation is announced twice, as task.comment.created to the task's room and then to its project's room, and nothing else is sent |
| Comments.CreateAnnouncements | routes/commentRoutes.js:125-138 | a new comment is announced to the task room and then to the project room, and to nothing else |
| Comments.CreatedContentIsTrimmed | routes/commentRoutes.js:34-50 | the stored content is non-empty, at most 1000 characters, has no white space at either end and is its own trim |
| Comments.LogCommentSucceeds | routes/commentRoutes.js:110-123 | the comment activities are in the type enum, so each is logged as a success for the task's creator with the task, comment, author and project |
| Comments.NewlyMentionedMembers | routes/commentRoutes.js:186 | a name is newly mentioned exactly when the new text mentions it and the old one does not |
| Comments.NewlyMentionedIsFilter | routes/commentRoutes.js:186 | the newly mentioned names are the new mentions, order and repeats kept, with the old ones left out |
| Comments.NoNewMentionsOfSubset | routes/commentRoutes.js:186-188 | repeating only old mentions notifies nobody |
| Comments.ApplyPatch | routes/commentRoutes.js:234-238 | every field the body gives replaces the stored one, including the id, task and creation date; given content is stored trimmed and absent fields are kept |
| Comments.ApplyPatchIdempotent | routes/commentRoutes.js:234-238 | an empty body leaves a comment as it is, and applying a patch twice is applying it once |
| Comments.UpdateMails | routes/commentRoutes.js:181 | no mail when the content is absent, empty or the same as the stored one |
| Comments.BlankUpdate | routes/commentRoutes.js:153-155 | an update is refused exactly when it gives non-empty content that is all white space |
| Comments.UpdateComment | routes/commentRoutes.js:147-264 | 400 for blank content, 404 for a missing comment or a missing task; otherwise only the named comment is patched, the mails for newly mentioned names are queued and one comment_updated activity naming the comment is logged |
| Comments.UpdateAnnouncement | routes/commentRoutes.js:256-263 | an update is announced once, to the room of the comment's task |
| Comments.UpdateLeavesOthers | routes/commentRoutes.js:234-238 | every other comment is left as it was |
| Comments.UnchangedMentionsSendNoMail | routes/commentRoutes.js:180-188 | new text that mentions nobody the old text did not mention sends no mail |
| Comments.DeleteComment | routes/commentRoutes.js:272-305 | 404 for a missing comment or task; otherwise exactly that comment is removed, tasks and mail are unchanged, and one comment_deleted activity naming the comment is logged |
| Comments.DeleteAnnouncement | routes/commentRoutes.js:307-314 | a deletion is announced once, to the room of the comment's task |
| Comments.RemoveUnique | routes/commentRoutes.js:289 | with unique ids, dropping the found comment drops every comment with that id and keeps the others |
| Comments.DeleteRemovesExactlyOne | routes/commentRoutes.js:277-289 | after a deletion the comment is gone, the others remain, ids stay unique, and deleting again gives 404 |
| Attachments.SortNewest | routes/attachmentRoutes.js:29-31 | the same attachments, newest upload first |
| Attachments.Describe | routes/attachmentRoutes.js:34-51 | every attachment is kept in place, flagged as a project attachment exactly when it has a project and no task |
| Attachments.ListProjectAttachments | routes/attachmentRoutes.js:12-54 | the attachments of the project's active tasks together with those filed under the project, counted with repeats, newest first, each flagged correctly |
| Attachments.ListedIffBelongs | routes/attachmentRoutes.js:21-31 | an attachment is listed exactly when it belongs to an active task of the project or is filed under the project |
| Attachments.BothIdsListedTwice | routes/attachmentRoutes.js:25-29 | an attachment naming both a task of the project and the project appears twice |
| Attachments.ListTaskAttachments | routes/attachmentRoutes.js:63-72 | exactly the attachments of the task, newest first |
| Attachments.AddAttachment | routes/attachmentRoutes.js:81-100 | 400 exactly when file name, URL or uploader is missing, with nothing changed; otherwise one valid attachment of the task, stamped now, is appended and announced in the task room |
| Attachments.AttachmentIndex | routes/attachmentRoutes.js:120 | the position of an attachment with the id, and none exactly when no attachment has it |
| Attachments.GetAttachment | routes/attachmentRoutes.js:151-165 | 404 exactly when no attachment has the id; otherwise a stored attachment with that id |
| Attachments.UpdateAttachment | routes/attachmentRoutes.js:174-193 | 404 exactly when the id is unknown; otherwise only that attachment changes, each given field is written (the upload time and id included), absent ones are kept, and the update time is now |
| Attachments.EmptyPatchOnlyStamps | routes/attachmentRoutes.js:183-187 | an empty body changes only the update time |
| Attachments.DeleteAttachment | routes/attachmentRoutes.js:111-142 | 404 with nothing changed exactly when the id is unknown; otherwise the first match is removed and the removal is announced in its task's room |
| Attachments.DeleteThenGet | routes/attachmentRoutes.js:135-162 | with distinct ids a deleted attachment is no longer found |
| Attachments.BulkDelete | routes/attachmentRoutes.js:202-230 | 400 exactly when the ids are missing or empty; otherwise exactly the listed attachments are removed and the count matches the number removed |
| Attachments.DeleteRoute | routes/attachmentRoutes.js:111-235 | any delete path, the bulk one included, is handled by the single delete, with a count of 0 |
| Attachments.DeleteRouteIntended | routes/attachmentRoutes.js:202-235 | with the literal path first, the bulk path reaches the bulk handler and every other path the single delete |
| Attachments.BulkDeleteShadowed | routes/attachmentRoutes.js:111-124 | as written a bulk delete answers 404 and removes nothing; with the literal path first it removes every listed attachment |
| Uploads.AttachmentFilterIsPrefixMatch | routes/uploadRoutes.js:35-63 | a type is accepted exactly when it starts with a listed entry, and every image is also an accepted attachment |
| Uploads.ArchiveRefused | routes/uploadRoutes.js:36-61 | a zip archive is refused |
| Uploads.Receive | routes/uploadRoutes.js:26-79 | no file reaches the route as no file; a file is received exactly when its type passes the filter and it is within the size cap |
| Uploads.UploadUrl | routes/uploadRoutes.js:82-97 | 400 exactly without a file, 200 exactly when the file is received, and then the URL under /uploads/ |
| Uploads.ImageCapBelowAttachmentCap | routes/uploadRoutes.js:65-79 | an image over 5 MB and within 50 MB fails as an image upload and succeeds as an attachment upload |
| Uploads.Record | routes/uploadRoutes.js:118-126 | absent ids become null, a missing file name falls back to the original name, and URL, size, uploader and time come from the upload |
| Uploads.Announce | routes/uploadRoutes.js:131-155 | the task room is told when a task is named, otherwise the project room |
| Uploads.Details | routes/uploadRoutes.js:159-196 | the logged details carry the file name and URL, and the task id when a task is named, otherwise the project id |
| Uploads.UploadAttachment | routes/uploadRoutes.js:100-225 | 400 exactly for a missing file, a missing user or neither task nor project; on success the record is appended, announced and logged once as attachment_added for the uploader |
| Uploads.UploadedToTaskIsListed | routes/uploadRoutes.js:100-225 | an attachment uploaded to a task appears in that task's attachment listing |
| Dashboard.Bump | services/dashboardMetricsService.js:27 | one increment raises the key's count by one, leaves every other key alone and raises the total by one |
| Dashboard.Tally | services/dashboardMetricsService.js:24-34 | each key's count is its number of occurrences, and the counts add up to the number of keys |
| Dashboard.ScopeOf | services/dashboardMetricsService.js:12-21 | exactly the organization's projects, teams and users, and exactly the tasks of those projects |
| Dashboard.StatusLabel | services/dashboardMetricsService.js:26 | a code no status type carries is "Unknown Status"; any other label is the value of a type carrying the code |
| Dashboard.MonthCounts | services/dashboardMetricsService.js:36-56 | twelve months that together hold every date of the year |
| Dashboard.MonthCountsPerMonth | services/dashboardMetricsService.js:36-56 | each month holds exactly the number of dates of the year that fall in it |
| Dashboard.MonthCountsEveryMonth | services/dashboardMetricsService.js:36-56 | every month holds exactly the number of dates of the year that fall in it |
| Dashboard.Candidates | services/dashboardMetricsService.js:72-78 | exactly the activity of the users in the last 30 days |
| Dashboard.RecentActivity | services/dashboardMetricsService.js:75-78 | at most 50 of the candidates, newest first, taken from them |
| Dashboard.PrefixNotLower | services/dashboardMetricsService.js:78 | the first entries of a descending list are no lower than the rest |
| Dashboard.RecentActivityKeepsNewest | services/dashboardMetricsService.js:75-78 | no activity left out of the list is newer than one kept |
| Dashboard.RecentActivityIsRecent | services/dashboardMetricsService.js:72-78 | every listed activity is a recent activity of the users |
| Dashboard.Performance | services/dashboardMetricsService.js:59-69 | a team's active projects never exceed its projects |
| Dashboard.TeamPerformance | services/dashboardMetricsService.js:59-70 | one card per team, in order, with the member count given for it |
| Dashboard.MembershipCount | services/dashboardMetricsService.js:66 | the member count meant for a team is its number of memberships |
| Dashboard.MemberCountAlwaysZero | services/dashboardMetricsService.js:66 | as written a team with a member shows none; counted by membership it shows one |
| Dashboard.EveryTeamCountsEveryProject | services/dashboardMetricsService.js:60-62 | within one organization every team is credited with every project of the organization |
| Dashboard.BuildCharts | services/dashboardMetricsService.js:23-98 | each status and task type is counted as often as it occurs, each month holds exactly this year's project creations and completed tasks that fall in it, each activity type is counted as often as it occurs among the recent activities (at most 50), and completed and active tasks add up to all tasks |
| Dashboard.UnknownCodesCounted | services/dashboardMetricsService.js:26-27 | a project whose code no status type carries is counted under "Unknown Status" |
| Dashboard.BuildDashboardStats | services/dashboardMetricsService.js:10-102 | the totals are the organization's project, team and user counts, the status counts add up to the projects, and every team shows no members |
| Dashboard.DaysRemaining | routes/dashboardDetailsRoute.js:166-168 | the whole days left before the finish date |
| Dashboard.Deadlines | routes/dashboardDetailsRoute.js:61-69 | one entry per project finishing after now, each with the project's document id, its finish date and the whole days left |
| Dashboard.Initials | routes/dashboardDetailsRoute.js:183 | the upper-cased first letters of the names that are present, or "U" when both are empty |
| Dashboard.Card | routes/dashboardDetailsRoute.js:176-188 | a member card with defaults for the missing fields and the user's latest successful login when there is one |
| Dashboard.RecentTeams | routes/dashboardDetailsRoute.js:160-164 | the first five teams, each with its document id, its name and the member count given for it |
| Dashboard.OrganizationName | routes/dashboardDetailsRoute.js:150 | the name of the first organization with the number, or Unknown Organization when there is none or its name is empty |
| Dashboard.DetailsWith | routes/dashboardDetailsRoute.js:13-215 | 500 exactly for an organization id that is not a number; otherwise the totals, deadlines, recent teams, member cards, swept invites and charts of the organization |
| Dashboard.Members | routes/dashboardDetailsRoute.js:176-188 | one card per user of the organization, in order |
| Dashboard.DashboardDetails | routes/dashboardDetailsRoute.js:123-163 | as written every team card and every recent team shows no members |
| Dashboard.DashboardDetailsIntended | routes/dashboardDetailsRoute.js:113-164 | counted by membership, every team card and recent team shows the team's memberships |
| Dashboard.CardShowsLatestLogin | routes/dashboardDetailsRoute.js:45-59 | a card shows a last login exactly when the user has a successful login, and then the latest one |
| Dashboard.DetailsShowLatestLogin | routes/dashboardDetailsRoute.js:176-188 | each member card is that of an organization user with its latest successful login |
| Dashboard.DetailsShowNoStaleInvite | routes/dashboardDetailsRoute.js:31-38 | no listed invite is still pending past its expiry |
| Dashboard.DetailsAgreeWithMetrics | routes/dashboardDetailsRoute.js:75-142 | the route's charts and totals equal the ones the metrics service broadcasts for the same organization at the same moment |
| Dates.FormatRelativeTime | services/dateUtils.js:72-90 | "Just now" exactly below a minute, including future dates; then whole minutes below an hour, whole hours below a day and whole days below a week, each bracketing the elapsed time; and the date itself exactly from a week on |
| Dates.NestedFloor | services/dateUtils.js:74-77 | flooring seconds to minutes, hours and days one step at a time is flooring by the product |
| Dates.LabelsGrowWithTime | services/dateUtils.js:72-90 | a later moment never gives a finer unit, and within minutes never a smaller count |
| Dates.RenderedCountReadsBack | services/dateUtils.js:82 | the number in a minutes label reads back as the count |

## Left out

- Persistence: Mongoose casting, `trim`/`lowercase` schema options, populated references, indexes and transactions. Stores are sequences and maps of records, and a save that the schema refuses is an explicit error branch.
- Cryptography and foreign services: bcrypt hashing (a password is compared as given), TOTP codes, the QR code image, Google token verification, JWT signing, Stripe-like gateway calls and e-mail delivery. Each is a parameter or a recorded outbox entry.
- Handlers not modelled:
  - authController `verify2FA`, `disable2FA`, `verifyLogin2FA`, `logout`, `completeUserProfile`, `getUserProfile`;
  - authController `getUserActivities` (the five-entry version), `getUserOrganizations`, `handleGitHubCallback`, `getUserOverview`;
  - they only read or forward documents, or depend on the foreign services above.
- Chat handlers not modelled: the conversation list, archived list, statistics, message deletion, message patch and archive handlers in routes/messageRoutes.js. Message paging (skip/limit) in the messages GET is not modelled either: the visible-message window is stated without paging.
- Chatbot conversation history (`getConversationHistory` in routes/chatbotRoutes.js), a plain read.
- Listing order between documents with equal timestamps: the sorts are stable on the input order, and the database's tie order is not modelled.
- File system effects: `fs.unlink`, `mkdir` and the stored file name (time plus a random number). The stored name is a parameter.
- Uploader and task details joined into the project attachment listing; a non-array `attachmentIds` is treated as absent.
- Null values inside patch bodies: a patch field is either absent or a value.
- `ModifiedBy` fields that some handlers set are dropped where no property depends on them.
- The comment listing GET (routes/commentRoutes.js:12-21), a plain sorted read.
- Route-parameter checks that Express makes unreachable (an empty `:id` never matches the route).
- Team handlers: the second lookup after the owner check (404/403 for the same team) cannot fail once the owner check passed, and is not modelled.
- Organizations.GenerateOrganizationID: requires that one of the finitely many draws is free. The code draws until it finds a free id and does not terminate when all six-digit ids are taken.
- Organizations.CreateOrganization: does not set the creator's `organizationID`, because the code does not either.
- Dashboard: the organization id is a decimal string cast to a number, and the cast is modelled only as "is a decimal string". The calendar is a parameter. "Thirty days ago" is `now - 30 * DayMs`, so daylight-saving shifts are ignored. The invite sweep's `save()` is not awaited, and the model applies it immediately.
- Dashboard.BuildDashboardStats: the envelope around the metrics (`event`, `version`, `meta.emittedAt`) is not modelled; only the emission's room and event name are.
- Dates.FormatRelativeTime: the date label beyond a week is locale-formatted text, modelled as an opaque `DateOnly(date)`.
- Billing: refund amounts use `Math.round` on a rational amount. The model computes them exactly, so floating-point rounding is not modelled.
- Billing.QuoteStricterThanDowngrade: states the observed difference between the refund quote and the downgrade; neither is corrected, since the code gives no sign of which one is intended.
- Gateway.EmitDashboardMetrics: the statistics the refresh carries are not kept, and the statistics queries are taken to succeed. The project and task handlers await the refresh and swallow its errors. The team handlers do not await it, so the refresh can reach the room after emissions of later requests; the model places it right after the handler's own event.
- Task handlers: a task without `ProjectID_FK` is taken to find no project, so its dashboard key is "undefined". The query `findOne({ ProjectID: undefined })` may instead match some project, depending on how Mongoose treats an undefined filter value.
- Conversations.CreateGroup: the invitees and their "added to the group" messages follow the request's order with duplicates dropped. The code takes them from `User.find({ _id: { $in } })`, which answers in the store's order; the users are a map here, so that order is not modelled.
- Conversations.AddMembers: the new participants and their messages follow the request's order, for the same reason as in CreateGroup; the store's order of `User.find` is not modelled.
- Text: characters are compared, trimmed and case-mapped as ASCII (Common.LowerChar, UpperChar, IsSpace, Trim). JavaScript's `toLowerCase`, `toUpperCase`, `trim` and `\s` also map and strip non-ASCII characters such as U+00A0 and 'É'. String lengths are counted in code points rather than UTF-16 units, which matters for the 50-character team name and the 1000-character comment limits. This affects Chatbot.ClassifyLower, Dashboard.Initials, EmailHelpers.Extension, EmailHelpers.IconOf, Billing.StripSpaces and Comments.CreateCheck.
- Subtasks.Update, Subtasks.Toggle, Subtasks.Delete, Subtasks.List, Subtasks.Renamed and Subtasks.Toggled: these handlers read and write the route's field names, which the strict subtask schema does not declare. The model follows the route's names, so what the database would keep or drop under the schema is not modelled for them.
- Chatbot.HandleChatMessage: the logged activity keeps the reply's text under `response`; the reply's links are not kept, since activity metadata is modelled as text.
- Comments and Attachments: a patch may change a comment's or attachment's id; the unique index that would refuse a clash with another document's id is not modelled.
- Teams.Accept: accepting a join request does not check that the requester is already a member, as in the code. No lemma states otherwise.

## Findings

| source | as written | input that shows it | evidently intended | confidence | as-written member | corrected member |
|---|---|---|---|---|---|---|
| controllers/paymentController.js:160-176 | the page's `skip` is computed but never passed to the query, so every page lists the newest `limit` payments | fifteen payments, ten per page, page 2 | page `k` lists the payments after the first `(k - 1) * limit` | high (not executed) | Billing.HistorySecondPageRepeatsFirst | Billing.PagedHistoryTiles |
| routes/taskDetailsRoutes.js:40-49 | a User Story sets `CreatedBy` from the assignee, which it blanks first, so the save always fails validation | any draft of type User Story | a User Story is created with its author as `CreatedBy` | medium (not executed) | Tasks.UserStoryCreateFails | Tasks.UserStoryCreateIntended |
| routes/taskDetailsRoutes.js:751-765 | unassigning logs `task_unassign`, which the activity type enum lacks, so the handler answers 500 after the task was saved | unassigning an assigned task | the activity is logged and the answer is 200 | high (not executed) | Tasks.UnassignFailsAfterSave | Tasks.UnassignIntendedSucceeds |
| models/UserActivity.js:8-38 | `task_unassign` and `team_status_update` are not in the type enum, so logging them throws | logging either type | both types are accepted | high (not executed) | Activity.UnlistedTypesThrow | Activity.IntendedTypesLog |
| routes/subtaskRoutes.js:78-85 | the route builds the subtask with field names the schema does not declare, so the required fields are missing and the save always fails | any valid create request | the subtask is saved with the schema's field names | high (not executed) | Subtasks.CreateAsWrittenNeverSucceeds | Subtasks.Create |
| routes/teamDetailsRoutes.js:280-341 | toggling a team's status logs `team_status_update`, outside the enum, so the handler answers 500 after saving the toggle | toggling any team as its owner | the toggle is answered with 200 | high (not executed) | Teams.ToggleStatusFailsAfterSave | Teams.ToggleStatusIntended |
| routes/teamDetailsRoutes.js:455-477 | the `team.deleted` emission reads an undefined `user`, and the surrounding catch swallows the error, so no deletion is announced | deleting any team as its owner | `team.deleted` goes to the organization's room | high (not executed) | Teams.DeletedTeamNotAnnounced | Teams.DeleteTeamIntended |
| routes/teamRoutes.js:51-125 | creating a team never increments the organization's team counter, so the team limit never advances | any number of team creations | each team creation counts against the limit | medium (not executed) | Teams.TeamLimitNeverAdvances | Teams.CreateTeamIntended |
| controllers/authController.js:62-80 | accepting an invite checks its token and e-mail but not its expiry | a pending invite one millisecond past its expiry | an expired invite is refused | medium (not executed) | Invites.ExpiredInviteAccepted | Invites.AcceptIntendedOnlyLive |
| controllers/authController.js:226 | the unverified-e-mail branch passes the string 'google' where logActivity takes its metadata object; the Map-typed path refuses it, so the log call throws and the catch answers 500 after two records | any Google profile whose e-mail is not verified | the failure is logged once, with login method google, and the answer is 400 | medium (not executed) | Auth.UnverifiedGoogleLoginFails | Auth.GoogleLoginIntended |
| controllers/authController.js:713 | `loginNotifications` is read as `value \|\| true`, so it is always on | an account that turned notifications off | an explicit `false` is kept | high (not executed) | Auth.SecuritySettingsIgnoreOptOut | Auth.SecuritySettings |
| controllers/authController.js:724-740 | the security settings are written to fields the user schema does not declare, so the strict schema drops them and nothing is stored | a session timeout of 30 | the settings are stored and read back | high (not executed) | Auth.SavedSettingsIgnored | Auth.UpdateSecuritySettingsIntended |
| controllers/authController.js:553-585 | the QR library is imported as `qrcode` but called as `QRCode`, an unbound name, and the call comes before the temporary secret is stored, so 2FA set-up always answers 500 and stores nothing | any existing account | the temporary secret is stored and the QR data is returned | high (not executed) | Auth.Generate2FANeverStores | Auth.Generate2FA |
| controllers/authController.js:796-899 | `ForgotPasswordHistory` is used without being imported, so all three recovery handlers answer 500 | any existing account asking for a reset | a reset key is issued, checked and used once | high (not executed) | Auth.RecoveryUnavailable | Auth.ForgotThenReset |
| routes/userRoutes.js:10-46 | the usage report reads per-user counters that nothing increments, while the limits are enforced on organization counters | an organization at its project limit | the report agrees with the enforced limit | medium (not executed) | Users.ReportIgnoresOrganizationCounters | Users.IntendedReportAgreesWithLimits |
| routes/attachmentRoutes.js:111-235 | `DELETE /:attachmentId` is registered before `DELETE /bulk-delete`, so a bulk delete reaches the single delete and answers 404 | a bulk delete of existing attachments | the bulk handler removes them | high (not executed) | Attachments.BulkDeleteShadowed | Attachments.DeleteRouteIntended |
| routes/dashboardDetailsRoute.js:123-163 | member counts read `team.members`, which the team schema lacks, so every team shows 0 members | a team with one membership | the team's memberships are counted | high (not executed) | Dashboard.MemberCountAlwaysZero | Dashboard.DashboardDetailsIntended |
| routes/messageRoutes.js:385-427 | leaving a group calls `Message.save()` on the model rather than on a document. That throws right after the system message is created, so neither the message nor the remaining members' inbox updates are announced | a member leaving a group of three | the system message is announced to the chat room and to each remaining member's inbox | high (not executed) | Conversations.LeaveAnnouncementsLost | Conversations.LeaveGroupIntended |
