# ScriboAI consumer: a verified model of its core

ScriboAI is a course-authoring service for organisations. The Django backend
registers and logs in users and creates organisations, members and
invitations. It checks a member's role before organisation operations. It
saves AI-generated course outlines with their modules, and it relays live
edits of a page document to everyone in that document's room over a
WebSocket. The React frontend routes users by role. It lets owners manage
employees and invite them, edits course outlines and pages live over the
WebSocket, shows pages with navigation and a completion celebration, and
lists courses with their status badges.

This project models that core in Dafny. Each source file becomes one module:

| module | models |
|---|---|
| `Routing` | the two WebSocket routes and their uuid id pattern |
| `DocumentRoom` | the document consumer: group join and leave, `receive`, the relay to the room |
| `CourseViews` | `create_course_outline` and its module loop |
| `AuthViews` | `register_user` and `login_user` |
| `Permissions` | the four role permissions |
| `OrgSerializers` | the organisation, member and invitation serializers' field validation and `validate_role` |
| `OrgViews` | `create_organization`, `delete_organization`, `create_member`, `create_member_by_token`, `invite_member`, `generate_invite_token` |
| `HomeRedirect`, `ProtectedRoute` | the role redirect and the three route guards |
| `EmployeeDashboard` | the invitation form, the role buttons and the page's access check |
| `OutlineEdits` | the outline and module records and the copy-and-replace edits on their JSON |
| `OutlineEditorTsx`, `OutlineEditorJs` | the two outline editors: edits, change detection, debounced update and save, regenerate |
| `PageSocket` | the frames the page editor and the page viewer send and read |
| `PageEditorTsx`, `PageEditorJs` | the two page editors and their typing flag |
| `PageViewer` | navigation arrows, the action sender and the completion tracker |
| `CourseDashboard` | the course table, the confirmed delete, the status badge and tooltip |

Shared modules model the values the code works on:

- `Json` models parsed JSON. An object is a sequence of key and value pairs in insertion order. That is Python's order; JavaScript would list integer-like keys first, which none of the frames the components build has.
- `JsValues` models JavaScript reads on such values:
  - `undefined`;
  - property access that throws on `null` and `undefined`;
  - optional chaining;
  - truthiness;
  - `===`, where objects and arrays are only identical to themselves;
  - object spread;
  - lodash `isEqual`.
- `Decimal` writes an integer in decimal, as `str()` and f-strings do.
- `Sequences` provides `filter`.
- `Wrappers` provides `Option`.
- `AuthUser` holds the signed-in user as the authentication context keeps it.

Where the code changes state, the model is a class with that state:

- the channel layer and the consumers;
- the saved courses, users and organisations;
- the React components' state and refs.

Its methods say the whole new state in terms of the old one. Lemmas then prove what the source promises about those functions.

React effects and debounced senders are modelled explicitly:

- A state update followed by the change-detection effect is one step (`Commit`).
- A debounced call is a pending slot holding the latest argument.
- An explicit flush event stands for the debounce timer firing.
- Whether the socket is open when a frame is sent is a parameter.

Outside inputs are also parameters:

- the serializers' verdicts on course and module data;
- password hashing and password checks;
- the e-mail validator;
- fresh database ids and uuids;
- database errors.

## Model

| member | source | states |
|---|---|---|
| Routing.UuidTextIsPattern | consumer_backend/course_utils/routing.py:5-6 | The character check on a room id accepts exactly the strings of the route's pattern: 8-4-4-4-12 hexadecimal digits of either case, joined by hyphens |
| Routing.MatchRoom | consumer_backend/course_utils/routing.py:5-6 | A path matches a room route exactly when it is the route prefix, then an id of the uuid pattern, then a closing slash; the captured id is that middle part |
| Routing.ResolveDocument | consumer_backend/course_utils/routing.py:5 | A path reaches the document consumer with id `d` if and only if it is `ws/document/d/` and `d` has the uuid pattern |
| Routing.ResolveOutline | consumer_backend/course_utils/routing.py:6 | A path reaches the outline consumer with id `d` if and only if it is `ws/outline/d/` and `d` has the uuid pattern |
| Routing.NoPathMatchesBoth | consumer_backend/course_utils/routing.py:5-6 | No path matches both routes |
| Routing.AcceptedIdShape | consumer_backend/course_utils/routing.py:5-6 | Every routed id is 36 characters long, with hyphens at positions 8, 13, 18 and 23 and hexadecimal digits elsewhere |
| Routing.OtherPrefixRejects | consumer_backend/course_utils/routing.py:5-6 | A path under one route's prefix never matches the other route |
| Routing.TrailingSlashRequired | consumer_backend/course_utils/routing.py:5-6 | The route is anchored at `/$`: without the trailing slash, or with anything after it, no route matches |
| Routing.MalformedIdRejected | consumer_backend/course_utils/routing.py:5-6 | An id that does not have the uuid pattern is not routed |
| DocumentRoom.GroupName | consumer_backend/course_utils/consumers.py:7 | The room group is `document_` followed by the room id, so the id can be read back from the group name |
| DocumentRoom.GroupNameInjective | consumer_backend/course_utils/consumers.py:7 | Different room ids give different groups |
| DocumentRoom.ReadContent | consumer_backend/course_utils/consumers.py:18 | `data["content"]` yields the member when the parsed value is an object that has it; an object without it raises KeyError, and any other value raises TypeError |
| DocumentRoom.Delivered | consumer_backend/course_utils/consumers.py:21-27 | A group send appends the message to the outbox of every channel in the group and leaves every other channel's outbox unchanged |
| DocumentRoom.ChannelLayer.GroupAdd | consumer_backend/course_utils/consumers.py:10 | The channel joins the group; no other group changes and nothing is sent |
| DocumentRoom.ChannelLayer.GroupDiscard | consumer_backend/course_utils/consumers.py:14 | The channel leaves the group; an emptied group disappears; no other group changes and nothing is sent |
| DocumentRoom.ChannelLayer.GroupSend | consumer_backend/course_utils/consumers.py:21-27 | The message is delivered to the group's current members; the groups do not change |
| DocumentRoom.DocumentConsumer.Connect | consumer_backend/course_utils/consumers.py:5-11 | The consumer records the group `document_<id>`, joins it and accepts the connection |
| DocumentRoom.DocumentConsumer.Disconnect | consumer_backend/course_utils/consumers.py:13-14 | The consumer leaves its group and no other group changes; before any connect, the missing group name raises AttributeError |
| DocumentRoom.DocumentConsumer.Receive | consumer_backend/course_utils/consumers.py:16-27 | Text that is not JSON raises JSONDecodeError. A frame without `content` raises KeyError or TypeError and sends nothing. Otherwise `{content}` is delivered to every member of the room, the sender included |
| DocumentRoom.BroadcastReachesRoom | consumer_backend/course_utils/consumers.py:21-30 | The sender receives its own update as `{"content": c}` and a channel outside the room receives nothing |
| DocumentRoom.TwoEditorsShareARoom | consumer_backend/course_utils/consumers.py:5-30 | Two connections to one document share its room: a frame received on one reaches both as `{content}`, and after the other disconnects only the first remains |
| CourseViews.StampSetsFields | consumer_backend/course_utils/views.py:51-52 | A stamped module has `course_uuid` set to the course's uuid and `order` set to its position; every other key keeps its value |
| CourseViews.Process | consumer_backend/course_utils/views.py:48-63 | The loop never saves more modules than it was given |
| CourseViews.ProcessSavesValidPrefix | consumer_backend/course_utils/views.py:48-60 | The i-th saved module is the i-th submitted module stamped with order i, and it passed validation |
| CourseViews.ProcessStopsAtFirstFailure | consumer_backend/course_utils/views.py:48-63 | The loop completes if and only if every module is saved. Otherwise it stops at the first module that is not a dict, or whose stamped form fails validation, and reports that one |
| CourseViews.OrdersAreGapFree | consumer_backend/course_utils/views.py:48-53 | The saved modules carry orders 0, 1, 2, … with no gap, and each carries the course uuid |
| CourseViews.CompletedSavesEveryModule | consumer_backend/course_utils/views.py:48-67 | When every module is a dict whose stamped form validates, the loop completes and saves all of them, in order |
| CourseViews.CourseStore.SaveModules | consumer_backend/course_utils/views.py:48-63 | The loop's result is the specification `Process`, and exactly the modules it saved are added to the store |
| CourseViews.CourseStore.CreateCourseOutline | consumer_backend/course_utils/views.py:39-69 | An invalid course gives 400 and saves nothing. A valid course is saved first. A missing `modules` then raises KeyError, and a non-iterable one raises TypeError. Otherwise the module loop decides: 201, TypeError, or 400. The 201 body is the saved course's serializer representation with `modules` set to the representations of the saved modules, in order. Modules saved before a failure stay saved |
| AuthViews.FirstUser | consumer_backend/authentication/views.py:43 | `.first()` is None exactly when no user has the name; otherwise it is the earliest user with it |
| AuthViews.LoginUser | consumer_backend/authentication/views.py:35-49 | 400 exactly when a field is missing or empty. 500 with the exception's text exactly when the fields are filled and the user lookup raises. 200 exactly when the lookup succeeds and the earliest user with the name has a hash that accepts the password. 401 otherwise |
| AuthViews.LoginWithUniqueNames | consumer_backend/authentication/views.py:40-46 | With unique usernames, login succeeds if and only if some user has the name and a hash accepting the password; an unknown name gives 401 |
| AuthViews.LoginAfterAppend | consumer_backend/authentication/views.py:43-46 | A user appended under a new name, whose hash accepts the password, can log in |
| AuthViews.UserTable.RegisterUser | consumer_backend/authentication/views.py:11-32 | A missing field gives 400 and a taken name gives 400; neither adds a user. A database error gives 500 with its text. Otherwise the user with the hashed password is added and the reply is 201. Usernames stay unique |
| AuthViews.RegisterThenLogin | consumer_backend/authentication/views.py:11-46 | Registering a new user and then logging in with the same password gives 201 and then 200 |
| Permissions.FirstMember | consumer_backend/organization_utils/permissions.py:14 | The lookup is None exactly when the profile has no member row; otherwise it is the profile's first row |
| Permissions.FirstRowIsUnique | consumer_backend/organization_utils/permissions.py:14 | A profile has exactly one first row |
| Permissions.HasRoleIffFirstRow | consumer_backend/organization_utils/permissions.py:14-18 | A role permission holds if and only if the profile's first member row has that role code |
| Permissions.OnlyFirstRowMatters | consumer_backend/organization_utils/permissions.py:14 | Rows added after a profile's first row change no permission decision |
| Permissions.OwnerOrAdminIsEither | consumer_backend/organization_utils/permissions.py:53-60 | `IsOwnerOrAdmin` holds exactly when `IsOwner` or `IsAdmin` holds |
| Permissions.NoRowNoPermission | consumer_backend/organization_utils/permissions.py:9-60 | A profile without a member row passes none of the four permissions |
| Permissions.RolesExclusive | consumer_backend/organization_utils/permissions.py:9-47 | No profile is at once owner and admin, owner and employee, or admin and employee |
| Permissions.SuspendedHasNoPermission | consumer_backend/organization_utils/permissions.py:9-60 | A profile whose first row is suspended (`SU`) passes no permission |
| OrgSerializers.StripIsTrimmedSlice | consumer_backend/organization_utils/serializers.py:8 | `CharField`'s `strip()` returns a slice of the input that neither starts nor ends with whitespace; only whitespace is removed around it |
| OrgSerializers.StripIdempotent | consumer_backend/organization_utils/serializers.py:8 | Stripping twice is stripping once |
| OrgSerializers.CleanChar | consumer_backend/organization_utils/serializers.py:19-25 | An absent field is skipped if and only if it is optional; null is accepted if and only if null is allowed. Text is accepted if and only if its stripped form is non-blank (or blank is allowed), fits `max_length` and has no NUL; the stripped text is kept. An integer is accepted if and only if its decimal text fits `max_length`, and that text is kept; other values are rejected |
| OrgSerializers.CleanEmail | consumer_backend/organization_utils/serializers.py:21 | An `EmailField` accepts exactly the values its `CharField` accepts and the e-mail validator approves |
| OrgSerializers.ValidateOrganization | consumer_backend/organization_utils/serializers.py:8 | The organisation name validates exactly when its `CharField(max_length=255)` does; the name kept is 1 to 255 characters |
| OrgSerializers.ValidateRoleAsWritten | consumer_backend/organization_utils/serializers.py:27-30 | As written, `validate_role` accepts only None: a role string is never `in` the list of (code, label) pairs |
| OrgSerializers.AsWrittenRejectsEveryRole | consumer_backend/organization_utils/serializers.py:27-30 | As written, every role string is rejected, including `OW`, `AD` and `EM` |
| OrgSerializers.ValidateRole | consumer_backend/organization_utils/serializers.py:27-30 | The corrected check accepts a role if and only if it is None or one of the codes `EM`, `AD` and `OW` |
| OrgSerializers.ValidateMember | consumer_backend/organization_utils/serializers.py:18-30 | A member validates if and only if every declared field cleans to a value and the role, when given, is not rejected and passes `validate_role` (as intended); the validated data holds each field's cleaned value. A missing password or a null name is always rejected |
| OrgSerializers.StoredRole | consumer_backend/organization_utils/serializers.py:43 | `data.get('role', None)` is None exactly when the role was absent or null; otherwise it is the validated role |
| OrgSerializers.ValidatedRoleIsACode | consumer_backend/organization_utils/serializers.py:24-43 | With the corrected `validate_role`, a member is stored with no role or with one of the three role codes |
| OrgSerializers.ValidateInvite | consumer_backend/organization_utils/serializers.py:51-53 | An invitation validates exactly when its e-mail and its organisation id do; the id kept is at most 24 characters and the e-mail is approved by the validator |
| OrgViews.FindOrg | consumer_backend/organization_utils/views.py:75 | The lookup by id is None exactly when no organisation has the id; otherwise it is a stored organisation with that id |
| OrgViews.FindOrgByText | consumer_backend/organization_utils/serializers.py:36 | The organisation lookup by the validated text is None exactly when no organisation's id is written that way; otherwise it is that organisation |
| OrgViews.OwnerPayloadNeverValid | consumer_backend/organization_utils/views.py:55-60 | The owner data `create_organization` builds has no `password`, so `MemberSerializer` never validates it, whatever the request holds |
| OrgViews.WithToken | consumer_backend/organization_utils/views.py:99 | The invitations matched by a token are exactly those that carry it |
| OrgViews.UniqueTokenMatchesOnce | consumer_backend/organization_utils/views.py:99 | When tokens are unique, a stored invitation's token matches exactly that one invitation |
| OrgViews.OrgStore.SaveMember | consumer_backend/organization_utils/serializers.py:33-49 | Without the organisation, DoesNotExist is raised and no member is saved. A stored member with the same e-mail address makes the save raise IntegrityError, and nothing is saved. Otherwise the member is appended with `data.get('role')` as its role. Store consistency and unique addresses are kept |
| OrgViews.OrgStore.SaveInvitation | consumer_backend/organization_utils/serializers.py:55-77 | Without the organisation nothing changes. Otherwise an invitation with the fresh token is appended, and tokens stay unique |
| OrgViews.OrgStore.CreateOrganization | consumer_backend/organization_utils/views.py:44-66 | An invalid name gives 400 and changes nothing. A valid name saves the organisation first. An invalid owner then gives 400. A valid owner is saved and gives 201, or DoesNotExist or IntegrityError (an address already stored) is raised. The store stays consistent |
| OrgViews.CreateOrganizationLeavesOrphan | consumer_backend/organization_utils/views.py:44-66 | With the real member serializer, any valid name gives 400 and leaves the new organisation stored without any member |
| OrgViews.OrgStore.CreateMember | consumer_backend/organization_utils/views.py:82-94 | An invalid member gives 400 and saves nothing. A valid member of an unknown organisation raises DoesNotExist, and one whose e-mail address is already stored raises IntegrityError; both give 500 and save nothing. Otherwise the member is appended and 201 returns it. Under the intended role check, that member has no role or one of the three role codes. Store consistency is kept |
| OrgViews.OrgStore.DeleteOrganization | consumer_backend/organization_utils/views.py:69-80 | An id value that is text the id lookup cannot read raises ValueError; a missing id, or one no organisation has, raises DoesNotExist; both change nothing. Otherwise the organisation, its members and its invitations are deleted, and the reply is 201 with the request's own id value as Python prints it (`05` stays `05`, `true` is echoed as `True` and looks up id 1). The store stays consistent |
| OrgViews.AddOrgPreservesConsistency | consumer_backend/organization_utils/views.py:53 | Saving an organisation with a fresh id keeps ids unique and every member and invitation pointing at an existing organisation |
| OrgViews.DeletePreservesConsistency | consumer_backend/organization_utils/views.py:77 | The cascade delete keeps ids and tokens unique and leaves no member or invitation without its organisation |
| OrgViews.OrgStore.CreateMemberByToken | consumer_backend/organization_utils/views.py:97-104 | 400 exactly when no invitation has the token. In a consistent store, a token some invitation has always gives 202, and 202 means exactly one invitation has it. No member is created |
| OrgViews.OrgStore.InviteMember | consumer_backend/organization_utils/views.py:127-144 | The `organization_id` value is looked up like the delete view's id: text the lookup cannot read raises ValueError, and a missing id, a negative one or one no organisation has raises DoesNotExist; both change nothing (`"3"` finds organisation 3). Otherwise the invitation with the fresh token is stored, 200 returns the token, and that token is then accepted with 202 |
| OrgViews.GenerateInviteToken | consumer_backend/organization_utils/views.py:146-147 | `str(uuid4())` is text of the room-id pattern in lower-case hexadecimal, with version digit `4` and a variant digit in `89ab` |
| Decimal.DecimalText | consumer_backend/organization_utils/views.py:78 | An integer's decimal text is non-empty and made of digits and a minus sign. It starts with `-` exactly for a negative integer, and it is one digit exactly for 0 to 9 |
| Decimal.DecimalTextInjective | consumer_backend/organization_utils/views.py:78 | Different integers have different decimal texts, so the text names its integer |
| HomeRedirect.Target | consumer_frontend/src/utils/HomeRedirect.js:9-21 | No navigation while loading. Then: `/login` exactly when signed out, `/admin/home` exactly for `OW` and `AD`, `/employee/home` exactly for `EM`, and `/` for any other role |
| ProtectedRoute.Base | consumer_frontend/src/utils/ProtectedRoute.tsx:9-14 | Placeholder exactly while loading; admits exactly the signed-in users once loaded |
| ProtectedRoute.Admin | consumer_frontend/src/utils/ProtectedRoute.tsx:16-21 | Placeholder exactly while loading; admits exactly users with role `OW` or `AD` |
| ProtectedRoute.Employee | consumer_frontend/src/utils/ProtectedRoute.tsx:23-28 | Placeholder exactly while loading; admits exactly users with role `EM` |
| ProtectedRoute.AdminAndEmployeeExclusive | consumer_frontend/src/utils/ProtectedRoute.tsx:16-28 | No session passes both the admin and the employee guard |
| ProtectedRoute.RoleGuardsImplyBase | consumer_frontend/src/utils/ProtectedRoute.tsx:9-28 | Whoever a role guard admits, the base guard admits |
| ProtectedRoute.RedirectTargetIsAdmitted | consumer_frontend/src/App.tsx:108-109 | The home page the redirect picks is admitted by the guard in front of it, and a home page is picked exactly when one of the two role guards admits the session |
| EmployeeDashboard.EmailShapeIsRegex | consumer_frontend/src/AdminPages/EmployeeDashboard.tsx:432 | The shape check (no whitespace, exactly one `@` with text before it, a `.` after it with text on both sides) accepts exactly the strings `/^[^\s@]+@[^\s@]+\.[^\s@]+$/` matches |
| EmployeeDashboard.EmailSplitIsUnique | consumer_frontend/src/AdminPages/EmployeeDashboard.tsx:432 | A match splits in only one way into mailbox and domain |
| EmployeeDashboard.InviteForm.constructor | consumer_frontend/src/AdminPages/EmployeeDashboard.tsx:428-430 | The form starts with an empty address, the flag set, no error message and nothing posted |
| EmployeeDashboard.InviteForm.HandleEmailChange | consumer_frontend/src/AdminPages/EmployeeDashboard.tsx:434-444 | The field takes the new text; the flag and the error message follow the regex test on it |
| EmployeeDashboard.InviteForm.HandleSubmit | consumer_frontend/src/AdminPages/EmployeeDashboard.tsx:452-472 | The handler as written: the invitation is posted only when the flag is set; otherwise the error message is shown. Posted addresses are well formed or the untouched empty field |
| EmployeeDashboard.InviteForm.Submit | consumer_frontend/src/AdminPages/EmployeeDashboard.tsx:452-495 | The form's submit event runs the handler only when the field is non-empty, matches the regex and passes the browser's e-mail check, and then posts the address. Otherwise nothing is posted and the message is unchanged; the untouched empty form posts nothing |
| EmployeeDashboard.EditThenSubmit | consumer_frontend/src/AdminPages/EmployeeDashboard.tsx:434-495 | An edit followed by submit posts the new address if and only if it matches the regex and the browser accepts it as an e-mail address; otherwise nothing is posted, and an address that does not match shows the error message |
| EmployeeDashboard.RoleButtons | consumer_frontend/src/AdminPages/EmployeeDashboard.tsx:207-224 | An owner member gets no button and "No Actions Available."; only an owner viewer sees a button; both buttons show exactly for a member with neither role and an owner viewer |
| EmployeeDashboard.MemberActionForm.constructor | consumer_frontend/src/AdminPages/EmployeeDashboard.tsx:94 | The selected role starts as `EM` and no request has been sent |
| EmployeeDashboard.MemberActionForm.HandleRoleChange | consumer_frontend/src/AdminPages/EmployeeDashboard.tsx:130-150 | A request is sent and the role selected exactly when the new role differs from the member's |
| EmployeeDashboard.PressOfferedButton | consumer_frontend/src/AdminPages/EmployeeDashboard.tsx:207-221 | Pressing a button the form shows always sends one request, for the button's role |
| EmployeeDashboard.View | consumer_frontend/src/AdminPages/EmployeeDashboard.tsx:516-524 | Loading while loading, "Please log in." when signed out, and the dashboard exactly for `OW` and `AD` |
| EmployeeDashboard.ViewAgreesWithAdminGuard | consumer_frontend/src/App.tsx:112 | The dashboard's own check admits exactly whom the admin route guard in front of it admits |
| OutlineEdits.FeatureValue | consumer_backend/course_utils/models.py:6-9 | The three features are written `video`, `image` and `interactive` |
| OutlineEdits.FeatureValueInjective | consumer_backend/course_utils/models.py:6-9 | Different features are written differently |
| OutlineEdits.ReplaceItemChangesOneItem | consumer_frontend/src/CourseManagement/OutlineEditor.tsx:285-291 | Replacing item i of an array field changes that one item and keeps the array's length |
| OutlineEdits.SubtopicEditOnModule | consumer_frontend/src/CourseManagement/OutlineEditor.tsx:99-103 | On a module's JSON, the subtopic edit is the module with that one subtopic replaced |
| OutlineEdits.NameEditOnModule | consumer_frontend/src/CourseManagement/OutlineEditor.tsx:110-111 | On a module's JSON, the name edit is the module renamed |
| OutlineEdits.ModuleEditOnOutline | consumer_frontend/src/CourseManagement/OutlineEditor.tsx:285-291 | On an outline's JSON, replacing module i is the outline with that one module replaced |
| OutlineEdits.ObjectiveEditOnOutline | consumer_frontend/src/CourseManagement/OutlineEditor.tsx:484-491 | On an outline's JSON, replacing objective i is the outline with that one objective replaced |
| OutlineEdits.TitleEditOnOutline | consumer_frontend/src/CourseManagement/OutlineEditor.tsx:460 | On an outline's JSON, `{...prev, title}` is the outline with the new title |
| OutlineEdits.SummaryEditOnOutline | consumer_frontend/src/CourseManagement/OutlineEditor.tsx:472 | On an outline's JSON, `{...prev, summary}` is the outline with the new summary |
| OutlineEdits.FramesCarryScript | consumer_frontend/src/CourseManagement/OutlineEditor.tsx:325-365 | The update frame and the save frame both carry the outline at `data.script`; only the save frame names the action `save` |
| OutlineEditorTsx.WithModule | consumer_frontend/src/CourseManagement/OutlineEditor.tsx:285-291 | `updateModule` leaves a falsy outline as it is and otherwise yields an object |
| OutlineEditorTsx.WithTitle | consumer_frontend/src/CourseManagement/OutlineEditor.tsx:460 | The title updater returns a falsy outline unchanged and otherwise an object |
| OutlineEditorTsx.WithSummary | consumer_frontend/src/CourseManagement/OutlineEditor.tsx:472 | The summary updater returns a falsy outline unchanged and otherwise an object |
| OutlineEditorTsx.WithSubtopic | consumer_frontend/src/CourseManagement/OutlineEditor.tsx:99-103 | Editing a subtopic of an existing module of an outline yields an object |
| OutlineEditorTsx.WithModuleName | consumer_frontend/src/CourseManagement/OutlineEditor.tsx:110-111 | Renaming an existing module of an outline yields an object |
| OutlineEditorTsx.WithObjective | consumer_frontend/src/CourseManagement/OutlineEditor.tsx:485-490 | The objective updater returns a falsy outline unchanged and otherwise an object |
| OutlineEditorTsx.EditsOnOutline | consumer_frontend/src/CourseManagement/OutlineEditor.tsx:459-473 | On an outline the title and summary edits are the record updates of those fields; on `null` they leave `null` |
| OutlineEditorTsx.WithModuleOnOutline | consumer_frontend/src/CourseManagement/OutlineEditor.tsx:285-291 | On an outline, `updateModule(i, m)` is the outline with module i replaced by m; on `null` nothing changes |
| OutlineEditorTsx.WithObjectiveOnOutline | consumer_frontend/src/CourseManagement/OutlineEditor.tsx:484-491 | On an outline, an objective edit replaces that one objective; on `null` nothing changes |
| OutlineEditorTsx.WithSubtopicOnOutline | consumer_frontend/src/CourseManagement/OutlineEditor.tsx:99-103 | On an outline, a subtopic edit replaces that one subtopic of that one module |
| OutlineEditorTsx.WithModuleNameOnOutline | consumer_frontend/src/CourseManagement/OutlineEditor.tsx:110-111 | On an outline, a module title edit renames that one module |
| OutlineEditorTsx.RegenerateFrameCarries | consumer_frontend/src/CourseManagement/OutlineEditor.tsx:381-387 | The regenerate request names the action `update` and carries the comments and the outline under `data` |
| OutlineEditorTsx.OutlineEditor.constructor | consumer_frontend/src/CourseManagement/OutlineEditor.tsx:261-263 | The outline and the last queued outline start as `null`; nothing is pending or sent |
| OutlineEditorTsx.OutlineEditor.Commit | consumer_frontend/src/CourseManagement/OutlineEditor.tsx:339-344 | After a state update the outline is the new value. An outline not deep-equal to the last one queued is queued and recorded; otherwise the queue and the record are unchanged |
| OutlineEditorTsx.OutlineEditor.UpdateModule | consumer_frontend/src/CourseManagement/OutlineEditor.tsx:285-291 | With no outline nothing changes; otherwise the outline is the module edit, followed by change detection |
| OutlineEditorTsx.OutlineEditor.SaveTitle | consumer_frontend/src/CourseManagement/OutlineEditor.tsx:459-461 | The outline becomes the guarded title edit; change detection runs only when there was an outline |
| OutlineEditorTsx.OutlineEditor.SaveSummary | consumer_frontend/src/CourseManagement/OutlineEditor.tsx:471-473 | The outline becomes the guarded summary edit; change detection runs only when there was an outline |
| OutlineEditorTsx.OutlineEditor.SaveObjective | consumer_frontend/src/CourseManagement/OutlineEditor.tsx:484-491 | The outline becomes the guarded objective edit; change detection runs only when there was an outline |
| OutlineEditorTsx.OutlineEditor.OnMessage | consumer_frontend/src/CourseManagement/OutlineEditor.tsx:306-316 | A frame that is not JSON, or whose `data.script` read throws, changes nothing. Otherwise, since the typing flag is never set, the script replaces the outline and goes through change detection |
| OutlineEditorTsx.OutlineEditor.FlushUpdate | consumer_frontend/src/CourseManagement/OutlineEditor.tsx:325-337 | The queued outline goes out as `{data: {script}}` only if the socket is open; the queue empties either way |
| OutlineEditorTsx.OutlineEditor.SendSave | consumer_frontend/src/CourseManagement/OutlineEditor.tsx:367-369 | The debounced save holds the current outline |
| OutlineEditorTsx.OutlineEditor.FlushSave | consumer_frontend/src/CourseManagement/OutlineEditor.tsx:350-365 | The held outline goes out as a save request only if the socket is open; the slot empties either way |
| OutlineEditorTsx.OutlineEditor.Regenerate | consumer_frontend/src/CourseManagement/OutlineEditor.tsx:379-392 | The regenerate request goes out at once with the current outline if the socket is open; nothing else changes |
| OutlineEditorJs.UnguardedTitleEdit | consumer_frontend/src/CourseManagement/OutlineEditor.js:217-220 | Without a guard the title edit turns `null` and the initial `{}` into `{title}`, where the TypeScript editor keeps `null` |
| OutlineEditorJs.OutlineEditor.constructor | consumer_frontend/src/CourseManagement/OutlineEditor.js:111-113 | The outline and the last queued outline start as `{}`; nothing is pending or sent |
| OutlineEditorJs.OutlineEditor.Commit | consumer_frontend/src/CourseManagement/OutlineEditor.js:179-184 | After a state update the outline is the new value. An outline not deep-equal to the last one queued is queued and recorded; otherwise the queue and the record are unchanged |
| OutlineEditorJs.OutlineEditor.UpdateModule | consumer_frontend/src/CourseManagement/OutlineEditor.js:132-136 | The outline becomes the module edit, with no guard, followed by change detection |
| OutlineEditorJs.OutlineEditor.SaveSubtopic | consumer_frontend/src/CourseManagement/OutlineEditor.js:67-72 | The outline becomes the subtopic edit of that module, followed by change detection |
| OutlineEditorJs.OutlineEditor.SaveTitle | consumer_frontend/src/CourseManagement/OutlineEditor.js:217-220 | The outline becomes `{...outline, title}`, followed by change detection |
| OutlineEditorJs.OutlineEditor.SaveSummary | consumer_frontend/src/CourseManagement/OutlineEditor.js:230-233 | The outline becomes `{...outline, summary}`, followed by change detection |
| OutlineEditorJs.OutlineEditor.SaveObjective | consumer_frontend/src/CourseManagement/OutlineEditor.js:245-249 | The outline becomes the objective edit, followed by change detection |
| OutlineEditorJs.OutlineEditor.OnMessage | consumer_frontend/src/CourseManagement/OutlineEditor.js:146-156 | A frame that is not JSON, or whose `data.script` read throws, changes nothing. Otherwise the script replaces the outline and goes through change detection |
| OutlineEditorJs.OutlineEditor.FlushUpdate | consumer_frontend/src/CourseManagement/OutlineEditor.js:165-177 | The queued outline goes out only if the socket is open; the queue empties either way |
| OutlineEditorJs.OutlineEditor.SendSave | consumer_frontend/src/CourseManagement/OutlineEditor.js:207-209 | The debounced save holds the current outline |
| OutlineEditorJs.OutlineEditor.FlushSave | consumer_frontend/src/CourseManagement/OutlineEditor.js:190-205 | The held outline goes out as a save request only if the socket is open |
| PageSocket.ActionName | consumer_frontend/src/CourseManagement/PageEditor.tsx:30-32 | Next sends `next`, Back sends `back` and Save sends `save`, each if and only if |
| PageSocket.ActionNameInjective | consumer_frontend/src/CourseManagement/PageEditor.tsx:30-32 | Different buttons send different actions |
| PageSocket.ReadPage | consumer_frontend/src/CourseManagement/PageEditor.tsx:66-70 | An incoming frame is ignored exactly when reading `data.data.content` throws; otherwise content and metadata are that value and `data.meta` |
| PageSocket.ReadPageFrames | consumer_frontend/src/CourseManagement/PageEditor.tsx:89-94 | The editor's own update frame reads back as its text with no metadata; `{data: {content}, meta}` reads as its content and metadata |
| PageSocket.RoomRejectsPageFrames | consumer_backend/course_utils/consumers.py:18 | The document relay refuses both frames the page components send, `{data: {content}}` and `{action}`, with KeyError, and relays nothing |
| PageSocket.PageReadRejectsRoomBroadcast | consumer_backend/course_utils/consumers.py:29-30 | The relay's broadcast `{content}` has no `data`, so the page components' read throws and they ignore it |
| PageEditorTsx.PageEditor.constructor | consumer_frontend/src/CourseManagement/PageEditor.tsx:48-51 | Content starts empty, metadata `null`, the typing flag clear, nothing pending or sent |
| PageEditorTsx.PageEditor.HandleChange | consumer_frontend/src/CourseManagement/PageEditor.tsx:101-107 | `undefined` is ignored; text is shown, the typing flag is set and the text is queued. The flag is set exactly while an update is pending |
| PageEditorTsx.PageEditor.OnMessage | consumer_frontend/src/CourseManagement/PageEditor.tsx:64-76 | While typing nothing changes. Otherwise a readable frame replaces content and metadata; one that throws changes nothing |
| PageEditorTsx.PageEditor.FlushUpdate | consumer_frontend/src/CourseManagement/PageEditor.tsx:85-99 | The latest edit goes out as `{data: {content}}` only if the socket is open; the typing flag clears either way |
| PageEditorTsx.PageEditor.Press | consumer_frontend/src/CourseManagement/PageEditor.tsx:120-122 | A button click replaces the pending action with its own, so only the latest is kept |
| PageEditorTsx.PageEditor.FlushAction | consumer_frontend/src/CourseManagement/PageEditor.tsx:15-25 | The pending action goes out as `{action}` only if the socket is open |
| PageEditorJs.RoomRelaysUpdate | consumer_frontend/src/CourseManagement/PageEditor.js:37 | The relay reads back exactly the text this editor sends and broadcasts the same frame |
| PageEditorJs.BroadcastReadsBack | consumer_frontend/src/CourseManagement/PageEditor.js:20 | The relay's broadcast reads back, through `data.content`, as the content it carries |
| PageEditorJs.PageEditor.constructor | consumer_frontend/src/CourseManagement/PageEditor.js:7-9 | Content starts empty, the typing flag clear, nothing sent |
| PageEditorJs.PageEditor.HandleChange | consumer_frontend/src/CourseManagement/PageEditor.js:44-49 | The text is shown, flagged and queued; the flag is set exactly while an update is pending |
| PageEditorJs.PageEditor.OnMessage | consumer_frontend/src/CourseManagement/PageEditor.js:16-25 | While typing nothing changes. Otherwise the content becomes `data.content`; a frame whose read throws changes nothing |
| PageEditorJs.PageEditor.FlushUpdate | consumer_frontend/src/CourseManagement/PageEditor.js:34-42 | The latest edit goes out as `{content}` only if the socket is open; the flag clears either way |
| PageEditorJs.SendEdit | consumer_frontend/src/CourseManagement/PageEditor.js:34-49 | An edit flushed on an open socket goes out as `{content}` carrying exactly the edited text |
| PageEditorJs.RelayToPeer | consumer_backend/course_utils/consumers.py:5-30 | With two connections in one document's room, a frame the first relay reads reaches the second as the broadcast of the content it read |
| PageEditorJs.ShowFrame | consumer_frontend/src/CourseManagement/PageEditor.js:16-25 | An idle editor shows the `content` member of a frame it receives |
| PageEditorJs.EditReachesPeer | consumer_frontend/src/CourseManagement/PageEditor.js:16-49 | An edit in one JavaScript editor, relayed through the document room, is shown as that same text by an idle editor on the same document |
| PageViewer.ArrowsOnNumericMeta | consumer_frontend/src/CourseManagement/PageViewer.tsx:393-425 | With numeric order and total, the left arrow is disabled exactly on page 1. The right arrow is disabled exactly on the last page, or before the page is scrolled to the end |
| PageViewer.PrevDisabledIff | consumer_frontend/src/CourseManagement/PageViewer.tsx:396 | The left arrow is disabled exactly when the metadata has `current_order` equal to the number 1 |
| PageViewer.ArrowsWithoutMeta | consumer_frontend/src/CourseManagement/PageViewer.tsx:396-425 | With no metadata, or with neither field, `undefined === undefined` keeps the right arrow disabled while the left one stays enabled |
| PageViewer.ObjectOrdersNeverMatch | consumer_frontend/src/CourseManagement/PageViewer.tsx:425 | Object-valued order fields never compare equal, so only the scroll condition disables the right arrow |
| PageViewer.Viewer.constructor | consumer_frontend/src/CourseManagement/PageViewer.tsx:55-61 | Content starts as "No data.", metadata `null`, scroll progress 0, nothing pending or sent |
| PageViewer.Viewer.OnMessage | consumer_frontend/src/CourseManagement/PageViewer.tsx:207-217 | Every readable frame replaces content and metadata, with no typing gate; a frame whose read throws changes nothing |
| PageViewer.Viewer.Scroll | consumer_frontend/src/CourseManagement/PageViewer.tsx:103-109 | The scroll progress becomes the given percentage; content, metadata and the pending action are unchanged |
| PageViewer.Viewer.PressPrev | consumer_frontend/src/CourseManagement/PageViewer.tsx:393-396 | A disabled left arrow ignores the click; otherwise `back` is queued |
| PageViewer.Viewer.PressNext | consumer_frontend/src/CourseManagement/PageViewer.tsx:416-425 | A disabled right arrow ignores the click; otherwise `next` is queued |
| PageViewer.Viewer.FlushAction | consumer_frontend/src/CourseManagement/PageViewer.tsx:22-32 | The pending action goes out as `{action}` only if the socket is open |
| PageViewer.CrossesIffReaches | consumer_frontend/src/CourseManagement/PageViewer.tsx:138 | Starting below 100, a run of progress values crosses 100 from below if and only if one of them reaches 100 |
| PageViewer.CrossesAppend | consumer_frontend/src/CourseManagement/PageViewer.tsx:138-143 | A crossing after one more value is an earlier crossing, or the new value reaching 100 from a previous value below it |
| PageViewer.CompletionTracker.constructor | consumer_frontend/src/CourseManagement/PageViewer.tsx:63-68 | Nothing observed, not completed, no confetti, no button or dialog shown |
| PageViewer.CompletionTracker.Observe | consumer_frontend/src/CourseManagement/PageViewer.tsx:135-152 | The celebratory button shows when progress reaches 100 from below. Completion is the first crossing from 0 and is never undone. Confetti fires exactly once, at completion |
| PageViewer.CompletionTracker.OpenDialog | consumer_frontend/src/CourseManagement/PageViewer.tsx:155-157 | The completion dialog opens; completion and confetti are unchanged |
| PageViewer.CompletionTracker.ContinueReading | consumer_frontend/src/CourseManagement/PageViewer.tsx:160-164 | The compact button replaces the celebratory one and the dialog closes |
| PageViewer.CompletionMeansReached | consumer_frontend/src/CourseManagement/PageViewer.tsx:135-152 | After any run of progress values, the course is complete exactly when one of them reached 100; confetti has fired at most once |
| CourseDashboard.RemoveCourseSpec | consumer_frontend/src/CourseManagement/CourseDashboard.tsx:82 | After the delete no course has the deleted uuid. Every other course is kept, in order, and the list is shorter by exactly the number of rows with that uuid. A uuid not in the list changes nothing |
| CourseDashboard.RemoveCourseLength | consumer_frontend/src/CourseManagement/CourseDashboard.tsx:82 | The filtered list is shorter than the list by exactly the number of rows that carry the uuid |
| CourseDashboard.RemoveCourseTwice | consumer_frontend/src/CourseManagement/CourseDashboard.tsx:82 | Deleting the same course twice leaves the list as deleting it once |
| CourseDashboard.AsciiLower | consumer_frontend/src/CourseManagement/CourseDashboard.tsx:182 | Lower-casing keeps the length and maps `A`–`Z` to `a`–`z`, every other character to itself |
| CourseDashboard.StatusClass | consumer_frontend/src/CourseManagement/CourseDashboard.tsx:38-42 | The badge is yellow if and only if the lower-cased status is `draft`, green if and only if it is `published`, and gray otherwise |
| CourseDashboard.Tooltip | consumer_frontend/src/CourseManagement/CourseDashboard.tsx:176-181 | A tooltip is shown if and only if the status is exactly `published`, `temp` or `draft` |
| CourseDashboard.BadgeAndTooltipDisagreeOnCase | consumer_frontend/src/CourseManagement/CourseDashboard.tsx:176-182 | Statuses with a tooltip get their own colour, but `Draft` is coloured as a draft and has no tooltip |
| CourseDashboard.View | consumer_frontend/src/CourseManagement/CourseDashboard.tsx:110-152 | Spinner exactly while loading; then the error exactly when there is a non-empty one; then "No courses found" exactly when the list is empty; otherwise the table of the courses |
| CourseDashboard.CourseTable.constructor | consumer_frontend/src/CourseManagement/CourseDashboard.tsx:45-47 | The table starts loading, with no courses and no error |
| CourseDashboard.CourseTable.FetchSettled | consumer_frontend/src/CourseManagement/CourseDashboard.tsx:50-67 | Loading ends. A response sets the list; a failure sets the error message and keeps the list |
| CourseDashboard.CourseTable.HandleDelete | consumer_frontend/src/CourseManagement/CourseDashboard.tsx:69-96 | Only Yes followed by a successful request drops the course from the list. No, or a failed request, leaves the list unchanged |
| JsValues.Member | consumer_frontend/src/CourseManagement/PageEditor.js:20 | A property read throws exactly on `null` and `undefined`; otherwise it yields the member, or `undefined` when there is none |
| JsValues.OptionalMember | consumer_frontend/src/CourseManagement/PageViewer.tsx:396 | `?.` yields the member when the read succeeds and `undefined` where it would throw |
| JsValues.NestedReadThrows | consumer_frontend/src/CourseManagement/PageEditor.tsx:68 | `a.b.c` throws exactly when `a` or `a.b` is `null` or `undefined` |
| JsValues.StrictEquals | consumer_frontend/src/CourseManagement/PageViewer.tsx:425 | `===` holds exactly for equal primitive values (`undefined`, `null`, booleans, numbers, strings); a parsed object or array is never `===` to any value, since each parse makes a new one |
| JsValues.SpreadWithSets | consumer_frontend/src/CourseManagement/OutlineEditor.tsx:460 | `{...v, k: x}` has `k` equal to `x` and every other key as in `v` |
| JsValues.DeepEqualReflexive | consumer_frontend/src/CourseManagement/OutlineEditor.tsx:340 | `isEqual` holds between a value and itself |
| JsValues.DeepEqualIgnoresKeyOrder | consumer_frontend/src/CourseManagement/OutlineEditor.tsx:340 | `isEqual` ignores key order, which structural equality of the parsed objects does not |
| JsValues.UndefinedEqualsOnlyItself | consumer_frontend/src/CourseManagement/OutlineEditor.tsx:340 | `undefined` and `null` are each `isEqual` only to themselves |
| Json.Lookup | consumer_backend/course_utils/consumers.py:18 | A key lookup is None exactly when no member has the key, and otherwise returns a member's value |
| Json.LookupAssignSame | consumer_frontend/src/CourseManagement/OutlineEditor.tsx:289 | After setting a key, reading it gives the new value |
| Json.LookupAssignOther | consumer_frontend/src/CourseManagement/OutlineEditor.tsx:289 | Setting a key leaves every other key's value as it was |

## Left out

- Python and JavaScript runtime details are not modelled:
  - Framework internals: Django REST framework request parsing, Channels' ASGI plumbing and the channel layer's delivery to sockets.
  - React rendering.
  - The browser's WebSocket.
  - Lodash's debounce timer. It is modelled as a pending slot holding the latest argument, plus an explicit flush.
- `scribo_handler` and the outline room's consumer are not part of this model. The outline route is modelled up to the point where it hands over to that consumer. The room's merge and generation engine is not modelled.
- Password hashing, uuid randomness, the e-mail address validator and database errors are parameters: `makePassword`, `checkPassword`, fresh ids and tokens, `isEmail`, `createError`, `lookupError`.
- Floating point is not modelled:
  - The viewer's scroll percentage is an integer input to `PageViewer.Viewer.Scroll`.
  - The combined progress is a `real` input to `PageViewer.CompletionTracker.Observe`.
  - `NaN` progress (a page with no metadata, or a zero total) is not modelled.
  - JSON numbers are integers.
- Strings are sequences of Unicode code points. UTF-16 surrogates are not modelled.
- CourseDashboard.AsciiLower: `toLowerCase` is modelled on `A`–`Z` only. This is exact for the three badge keys, because no other character lower-cases to a single ASCII letter of them.
- Browser crashes from rendering are left out, for example the JavaScript outline editor rendering fields of an `undefined` outline.
- Stale React closures are left out. `handleDelete` filters the list it closed over, and the list is modelled as current.
- JavaScript prototype keys in `statusColors` are left out.
- `ref.current?.setMarkdown` is left out.
- CourseDashboard.CourseTable.FetchSettled: a response whose `courses` field is not a list is not modelled.
- OrgViews.OrgStore.SaveMember: `Organization.objects.get(uuid=...)` at serializers.py:36 and :60 names a field the model does not declare. Django would raise a field error there. The model instead looks the organisation up by its id written in decimal (OrgViews.FindOrgByText), which is what the callers pass. OrgViews.OrgStore.SaveInvitation does the same.
- OrgViews.OrgStore.DeleteOrganization: how the id lookup reads text as an integer is a parameter (`asInt`), shared with OrgViews.OrgStore.InviteMember. A JSON float id, or a list or object id, is not modelled, since JSON numbers are integers here; booleans are modelled as 1 and 0.
- AuthViews.UserTable.RegisterUser: request fields are typed as absent or a string. A non-string `password` (an integer, say) makes `make_password` raise TypeError, which the view turns into 500; the model reaches that path only through `createError`.
- OutlineEditorTsx.OutlineEditor.UpdateModule: requires, when the outline is truthy, a `modules` array with item `index`, and OutlineEditorTsx.OutlineEditor.SaveObjective likewise an `objectives` array with item `index`. The editor only offers these edits on the objectives and modules it has rendered from those arrays (OutlineEditor.tsx:479-489 and 501-506).
- OrgViews.OrgStore.SaveMember: the member record follows the schema of migrations/0001_initial.py:23-34, which has the `email` column the serializer writes. The Member class in models.py:14-21 has no `email`, so `Member(email=...)` would raise TypeError, and models.py declares no `Invitation`. As written, `member.save(password=...)` at serializers.py:46 passes a keyword `Model.save` does not take and raises TypeError; the model saves the member as intended. The password is never stored. The unique `user_name` column is not modelled, because `FullNameField` is not part of this model.
- Permissions.FirstMember: models the intended lookup, the first member row of the request's profile. As written, `Member.objects(auth_profile=...)` calls a Django manager, which is not callable, so every `has_permission` raises TypeError. Member also has no `auth_profile` field, and `authentication.models.AuthProfile` is not part of this model.
- EmployeeDashboard.InviteForm.Submit: the browser's `type="email"` check is a parameter (`browserEmail`). It rejects some addresses the regex accepts, for example `a@b_c.d`.
- OrgViews.OrgStore.CreateMember: models `create_member` over the intended `validate_role` (OrgSerializers.ValidateRole). As written, serializers.py:27-30 rejects every role string, so a request carrying any `role` gets 400 where the model gives 201. Only requests with no role or a null role behave the same. See "## Findings".
- OrgViews.OrgStore.CreateOrganization: takes the member check as a parameter (`validateMember`), and OrgViews.CreateOrganizationLeavesOrphan supplies the one with the intended `validate_role`. This changes no outcome, because the owner payload carries no password and is rejected under either role check (OrgViews.OwnerPayloadNeverValid).
- AuthViews.LoginUser: request fields are typed as absent or a string. A non-string `username` or `password` makes the lookup or `check_password` raise, which the view turns into 500; the model reaches that path only through `lookupError`.
- `send_mail` in `invite_member` is commented out in the source, so no mail is modelled.
- CourseViews.CourseStore.CreateCourseOutline: the course and module serializers' verdicts are parameters (`courseValid`, `moduleValid`), and so are their representations of saved rows (`courseRepr`, `moduleRepr`). Their field rules and output fields are not part of this model.
- The outline editors hold the outline as JSON. TypeScript's `Outline` type is not enforced on incoming frames, because the source does not check it either.
- OutlineEditorJs.OutlineEditor.UpdateModule: requires a `modules` array with item `index`, and OutlineEditorJs.OutlineEditor.SaveSubtopic also requires that module's subtopic. The editor only offers these edits on modules and subtopics it has rendered from those arrays (OutlineEditor.js:260-266).
- EmployeeDashboard.MemberActionForm.HandleRoleChange: the `if (!member) return` guard is left out. The form is only opened for a selected member.
- Debounce wait times and the socket's ready state are inputs: the `open` flag of each flush.

## Findings

| source | as written | input that shows it | evidently intended | confidence | as-written member | corrected member |
|---|---|---|---|---|---|---|
| consumer_backend/organization_utils/serializers.py:27-30 | `value not in Roles.choices` tests a role string against the list of (code, label) pairs, so every role string is rejected | role `"OW"`, which `create_organization` sends for the owner | accept None or one of the codes in `Roles.values` (`EM`, `AD`, `OW`) | high; not executed | OrgSerializers.ValidateRoleAsWritten | OrgSerializers.ValidateRole |
