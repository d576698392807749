# Course cartridge editor: push workflows, socket registry and CLI adapter

This project is a Dafny model of the server core of a small web application. The application edits course "cartridges" through a command-line tool, `cartridge_cli.py`, and shows progress in the browser through scripts pushed over websockets. It models four parts, one module each, plus two small support modules:

- **`Registry`** (`controllers/asyncqueue.py`) is the `AsyncQueue` class.
  - It keeps a table from user name to that user's list of sockets.
  - Sockets are registered and removed in place.
  - The per-user broadcasts send one envelope to every socket in a snapshot of the list, and prune each socket whose send fails.
  - Sockets are ids. Which sends of a broadcast fail is a set of ids that the caller supplies.
  - Every broadcast returns its delivery log.
  - A second field keeps the insertion order of the table's keys. The all-users broadcasts walk the table in that order, as Python dicts do.
- **`Auth`** (`controllers/auth.py`) covers the credential table, `verify_credentials`, and the two session gates.
- **`Courses`** (`models/courses.py`) is the `Courses` adapter.
  - Each operation checks that the course directory exists.
  - It then builds the argument vector for the CLI, runs it and shapes the answer.
  - The filesystem, the CLI process and JSON parsing are parameters, bundled in `Env`.
  - Every operation also returns the argument vectors it ran.
  - The argument builders that the source writes as repeated `extend` calls are methods. Each is proved equal to a declarative argument vector, which the CLI's flag reader is then proved to read back.
- **`Controllers`** (`controllers/web_controllers.py`) covers the eleven action handlers, `websocket_endpoint`, the keyword arguments of `update_item` and the template choice of `view_item`.
  - Each action handler is one sequential run: the login gate, the pushes in the handler's own order, the course operation and the response.
  - `Handle` drives the real `AsyncQueue`. Which sends fail is chosen push by push: `failures(k)` is the set of sockets whose send fails during the run's `k`-th push.
  - Its pushed scripts are proved to be the handler's entry of the push table `PushSequence`, with properties of that table proved separately.
- **`CourseDownload`** (`controllers/web_controllers.py`, inside `download_course`) covers the base64-marker splice and the walk that rewrites the course's files.
  - `str.find`, `str.count`, `str.split` and `in` are modelled on strings.
  - Base64/UTF-8 decoding is an abstract partial function.
- **`Text`** provides the Python string operations the builders use: `str.strip`, ASCII `str.upper` and `str(int)`.
- **`Wrappers`** provides `Option`.

Behaviours of the code that are easy to miss, each modelled as the code has it:

- **Emptied socket lists.** Pruning during a broadcast can leave an empty list under a user's key. Only `remove_websocket` deletes keys (`AddThenRemoveEmpty`, `PrunedTwice`).
- **Malformed frames.** A frame that `json.loads` rejects raises out of the receive loop, so the connection ends and the socket is unregistered. In `WebsocketSession` this is the end of the `events` sequence.
- **Uninspected results.** `edit_course`, `delete_course` and `edit_module` push the success series whatever their operation returned (`UninspectedOutcome`).
- **Crashes.** Two handlers raise after show-loading, which leaves the loading overlay on screen (see "## Findings").
- **`add_course` titles.** `add_course` uses `title.strip()` whenever `title` is truthy. A title of blanks therefore becomes the empty string; it does not fall back to the course name.

## Model

| member | source | states |
|---|---|---|
| `Registry.AsyncQueue.constructor` | controllers/asyncqueue.py:8-10 | The table starts empty, with no keys in its order. |
| `Registry.AsyncQueue.AddWebsocket` | controllers/asyncqueue.py:12-15 | A user without an entry gets the list `[ws]`; a known user gets `ws` appended at the end with no duplicate check; no other user changes; a new key goes last in the key order. |
| `Registry.AsyncQueue.RemoveWebsocket` | controllers/asyncqueue.py:17-22 | An unknown user is a no-op; otherwise only the first occurrence of `ws` goes, and the key is deleted whenever the remaining list is empty (including a list pruning had already emptied), leaving the key order too. |
| `Registry.AsyncQueue.SendToUser` | controllers/asyncqueue.py:24-33 | Loop over a snapshot of the user's list: every socket of the list at call time gets exactly one attempt, in list order, even after earlier failures; afterwards the list is the original with the failing sockets removed and the key is kept; nothing else changes. |
| `Registry.AsyncQueue.BroadcastJsToUser` | controllers/asyncqueue.py:24-33 | The per-user broadcast of an `execute-js` envelope carrying the code, with the log and the pruned table above. |
| `Registry.AsyncQueue.BroadcastHtmlToUser` | controllers/asyncqueue.py:35-44 | The same for a `render` envelope carrying the HTML. |
| `Registry.AsyncQueue.SendToAll` | controllers/asyncqueue.py:46-54 | Loop over the keys in insertion order, delegating to the per-user broadcast: the log is each user's attempts in key order, every user's list is pruned, and no key is added or removed. |
| `Registry.AsyncQueue.BroadcastJs` | controllers/asyncqueue.py:46-49 | `broadcast_js`: the all-users broadcast of one script. |
| `Registry.AsyncQueue.BroadcastHtml` | controllers/asyncqueue.py:51-54 | `broadcast_html`: the all-users broadcast of one HTML fragment. |
| `Registry.EnvelopeRoundTrip` | controllers/asyncqueue.py:28-42 | The envelope's event name and payload field give back exactly the pushed script or HTML. |
| `Registry.AttemptsShape` | controllers/asyncqueue.py:26-33 | The log has one entry per socket of the snapshot, at its position, delivered exactly when the socket is not failing. |
| `Registry.PruneStep` | controllers/asyncqueue.py:26-33 | One iteration: `remove` on the live list takes out the current snapshot socket and no other, so the list stays "pruned prefix + unvisited rest". |
| `Registry.HealthyMembers` | controllers/asyncqueue.py:32-33 | A socket survives pruning exactly when it was in the list and did not fail. |
| `Registry.HealthyAppend` | controllers/asyncqueue.py:32-33 | Pruning works socket by socket: pruning a concatenation prunes each part. |
| `Registry.HealthyIdempotent` | controllers/asyncqueue.py:32-33 | Pruning an already pruned list changes nothing. |
| `Registry.PrunedTwice` | controllers/asyncqueue.py:25-33 | After a broadcast the user's list is its pruned old list; a second broadcast with the same failures prunes nothing more; the key stays exactly when it was there. |
| `Registry.FailedSocketGone` | controllers/asyncqueue.py:32-33 | After a broadcast, a socket is still registered exactly when it was before and its send did not fail. |
| `Registry.BroadcastUnknownUser` | controllers/asyncqueue.py:25 | A broadcast to a user without an entry sends nothing and leaves the table unchanged. |
| `Registry.BroadcastTouchesOneUser` | controllers/asyncqueue.py:24-33 | A per-user broadcast adds or removes no key and leaves every other user's list as it was. |
| `Registry.RemoveFirstMultiset` | controllers/asyncqueue.py:20 | `list.remove` takes away one copy of the socket and nothing else. |
| `Registry.RemoveFirstDistinct` | controllers/asyncqueue.py:19-20 | On a list without repeats, `remove` keeps it repeat-free and drops exactly that element. |
| `Registry.AddThenRemove` | controllers/asyncqueue.py:12-22 | Registering a new socket and removing it restores the table, for an absent user or a non-empty list. |
| `Registry.AddThenRemoveEmpty` | controllers/asyncqueue.py:12-22 | For a user whose list pruning emptied, the same round trip deletes the key. |
| `Registry.AddTwiceRemoveFirst` | controllers/asyncqueue.py:12-22 | Add `c1`, add `c2`, remove `c1`: the user's list gains only `c2`, and other users are untouched. |
| `Registry.PrunedUpToAll` | controllers/asyncqueue.py:48-49 | Once every key has been visited, the all-users broadcast has pruned every list. |
| `Registry.BroadcastAllStep` | controllers/asyncqueue.py:48-49 | One iteration of the all-users loop prunes the next user and appends that user's attempts to the log. |
| `Auth.AcceptedPairs` | controllers/auth.py:5-8 | Exactly `("mark", "pass123")` and `("luke", "pass456")` are accepted. |
| `Auth.UnknownUserRejected` | controllers/auth.py:24-26 | A user missing from the table is rejected whatever the password. |
| `Auth.SwappedPasswordsRejected` | controllers/auth.py:5-8 | One user's password does not open the other account. |
| `Auth.GetCurrentUser` | controllers/auth.py:10-15 | A missing or empty session user name raises 401 "Not authenticated"; otherwise the name comes back unchanged. |
| `Auth.RequireLogin` | controllers/auth.py:17-22 | A missing or empty session user name gives a 303 redirect to `/login`; otherwise the (non-empty) name comes back unchanged. |
| `Auth.GatesAgree` | controllers/auth.py:10-22 | Both gates let exactly the same sessions through, with the same user name. |
| `Text.StripShape` | models/courses.py:19-23 | `strip()` removes exactly the leading and trailing whitespace: the result is a slice surrounded by whitespace only and starts and ends with a non-space. |
| `Text.StripIdempotent` | models/courses.py:19-23 | Stripping twice is stripping once. |
| `Text.StrippedIsFixed` | models/courses.py:19-23 | A string without surrounding whitespace is returned unchanged. |
| `Text.UpperShape` | models/courses.py:91 | `upper()` keeps the length and maps each character on its own. |
| `Text.TenAsText` | models/courses.py:204 | The default points value is passed as the text `10`. |
| `Courses.CartridgePathInjective` | models/courses.py:28-30 | Distinct course names never share a cartridge directory. |
| `Courses.RunCommand` | models/courses.py:12-26 | A zero exit gives the stripped stdout and no error; any other exit gives no output and the stripped stderr; both are free of surrounding whitespace. |
| `Courses.Invoke` | models/courses.py:93-94 | An operation runs one command and answers `(success, output if success else error)` from it. |
| `Courses.Suffix` | models/courses.py:189-236 | A CLI suffix exists exactly for the five supported content types. |
| `Courses.ArgvReadBack` | models/courses.py:83-91 | When no flag repeats, the CLI reads the subcommand, the path and every flag with exactly the value the builder gave it. |
| `Courses.ArgvReadBackAbsent` | models/courses.py:83-91 | A flag the builder did not pass is not seen by the CLI. |
| `Courses.BuildAddCourseArgs` | models/courses.py:83-91 | The `extend` sequence of `add_course` gives the declarative `create` command. |
| `Courses.AddCourseFlags` | models/courses.py:76-94 | `None` and no command exactly when the course exists; otherwise one `create <path>` whose `--title` is the stripped title when truthy, else the stripped name, and whose `--code` is the stripped code when truthy, else the stripped upper-cased name. |
| `Courses.GetCourseModules` | models/courses.py:160-173 | A missing course gives no modules and runs nothing. Otherwise one `list <path> --json` runs. A successful, non-empty output that parses gives exactly the parsed modules; a failed or empty run, or output that does not parse, gives none. |
| `Courses.ModuleItems` | models/courses.py:175-181 | The items of the first module with that title, or none when no module has it. |
| `Courses.GetModuleItems` | models/courses.py:175-181 | The loop with early `return` gives exactly those items, after the one listing command. |
| `Courses.AddModulePosition` | models/courses.py:111-126 | `add_module` lists the course, then runs `add-module` with the stripped title at position count + 1. |
| `Courses.BuildUpdateModuleArgs` | models/courses.py:134-143 | The `extend` sequence of `update_module` gives the declarative `update-module` command. |
| `Courses.UpdateModuleFlags` | models/courses.py:128-146 | Stripped current and new titles; `--position` is passed exactly when a position is given, with its value. |
| `Courses.DeleteModuleCommand` | models/courses.py:148-158 | Exactly `delete-module <path> --title <stripped name>` runs, and its exit decides success. |
| `Courses.AddItemFlags` | models/courses.py:183-234 | Per type: `--filename` for files and `--title` otherwise, with the stripped title, and the stripped module. `--content` exactly for wiki pages, assignments and files, and `--description` exactly for discussion topics and quizzes; each carries the stripped given text, or the type's default (`placeholder content`, `Assignment description`, `File content here`, `Discussion topic description`, `Quiz description`). `--points` exactly for assignments and quizzes, with the given points or `10`. |
| `Courses.ItemCommandFlags` | models/courses.py:383-429 | `copy_item`'s commands name the item by `--filename` exactly for files and by `--title` otherwise, with the stripped target module. |
| `Courses.ItemArgsNamed` | models/courses.py:367-375 | With no extra option, a supported type's command is the verb with the type's suffix, the path, and the name flag with the stripped title. |
| `Courses.BuildUpdateItemArgs` | models/courses.py:287-334 | The per-type `extend` chain of `update_module_item` gives the declarative `update-*` command, or nothing for an unsupported type. |
| `Courses.UpdateItemFlags` | models/courses.py:281-339 | The item is named by its stripped old title; renames and texts are passed only when truthy, stripped; points (assignments and quizzes only) and position are passed exactly when given. |
| `Courses.MissingCourseRunsNothing` | models/courses.py:111-115 | Every mutating module or item operation answers "Course '<name>' not found" and runs nothing when the course is missing (the same guard at lines 131-132, 151-152, 186-187, 241-242, 284-285, 386-387). |
| `Courses.UnsupportedTypeRunsNothing` | models/courses.py:335-336 | An unsupported content type is refused with "Unsupported content type: X" before any command (also lines 236, 279, 429). |
| `Courses.InferType` | models/courses.py:347-353 | Either the content type of the first item with the requested title (even an empty one, as the loop stops there), or the empty string when no item has that title. |
| `Courses.ItemDetails` | models/courses.py:341-381 | A missing course gives `{}` and runs nothing. Otherwise the type is the given one, or the one inferred from the module's items after one listing. An unsupported or empty type gives `{}` with no further command. A supported type runs `display-<suffix> <path> --title/--filename <stripped title>`; a successful, non-empty output that parses gives the parsed record with `content_type` set to that type, and anything else gives `{}`. |
| `Courses.DetailsFor` | models/courses.py:355-381 | For a settled type: an unsupported or empty one gives `{}` and runs nothing more. A supported one runs exactly its `display-*` command; a successful, non-empty output that parses gives the parsed record with `content_type` set to the type, and otherwise `{}`. |
| `Courses.GetItemDetails` | models/courses.py:341-381 | The loop with `break` that infers the type gives exactly `ItemDetails`. |
| `Courses.ListedCoursesAreDirectories` | models/courses.py:32-65 | The `courses` property lists exactly the entries that are directories and whose `list` command succeeded with output. Each listed course has the parsed modules (titles, and items with title, type and placeholder content), or none when the output does not parse. |
| `Courses.ListCourses` | models/courses.py:32-65 | The loop over the directory listing gives the `courses` property and runs one `list` per directory. |
| `Controllers.FragmentsAreDistinct` | controllers/web_controllers.py:71 | A fragment update (a script starting `$(`) is none of the fixed scripts. |
| `Controllers.TagRoundTrip` | controllers/web_controllers.py:59-83 | Each pushed script names its message kind unambiguously. |
| `Controllers.ScriptsDecode` | controllers/web_controllers.py:59-83 | The series of message kinds can be read back from the series of pushed scripts. |
| `Controllers.FragmentJs` | controllers/web_controllers.py:71 | A fragment update is a jQuery update (`$(...)`) that ends with the rendered HTML, intact, before the closing characters. |
| `Controllers.OverlayShownAndHidden` | controllers/web_controllers.py:51-565 | Every handler's series starts with show-loading and holds it and hide-loading once each. |
| `Controllers.ToastMatchesOutcome` | controllers/web_controllers.py:51-565 | Exactly one toast, after the hide; it is the success toast exactly when the operation succeeded or the handler does not inspect it. |
| `Controllers.FragmentPlacement` | controllers/web_controllers.py:261-285 | At most one fragment update, exactly on the success path of a handler other than `update_item`; it follows the hide only in `delete_module`. |
| `Controllers.ModalClosed` | controllers/web_controllers.py:51-565 | Every handler but `update_item` ends by closing the modal, once. |
| `Controllers.UninspectedOutcome` | controllers/web_controllers.py:87-147 | `edit_course`, `delete_course` (and `edit_module`, lines 222-251) push `[show, fragment, hide, success, close]` whatever happens. |
| `Controllers.EditModuleStuckAsWritten` | controllers/web_controllers.py:222-251 | As written, `edit_module` pushes only show-loading and renames nothing. |
| `Controllers.AddExistingCourseStuckAsWritten` | controllers/web_controllers.py:59-65 | As written, adding an existing course pushes only show-loading. |
| `Controllers.CorrectedNeverStuck` | controllers/web_controllers.py:51-565 | Corrected, only `update_item` with an unparsable number raises; otherwise hide-loading is pushed; `edit_module` runs the module rename; an existing course is a failure with no command. |
| `Controllers.CorrectionIsLocal` | controllers/web_controllers.py:51-565 | Outside those two cases the corrected and the written handlers agree. |
| `Controllers.BuildUpdateKwargs` | controllers/web_controllers.py:518-551 | The key-by-key `kwargs` dictionary equals the declarative keyword arguments, or raising when a number does not parse. |
| `Controllers.KwargsSelection` | controllers/web_controllers.py:518-551 | Each keyword argument carries the form's value. The new title is passed exactly when the form has `item_title`, and the parsed position exactly when `position` is filled in. The content is passed exactly for wiki pages, assignments, discussion topics and files whose form has it; the description exactly for a quiz whose form has it; a new file name exactly for a file whose form has it. The parsed points are passed exactly when filled in for an assignment or a quiz. Other types get only the common fields. |
| `Controllers.KwargsRaise` | controllers/web_controllers.py:523-545 | `update_item` raises exactly when a filled-in position, or the points of an assignment or quiz, does not parse. |
| `Controllers.Titles` | controllers/web_controllers.py:355 | The module names, one per module, in order. |
| `Controllers.Render` | controllers/web_controllers.py:66-71 | A handler's fragment is a jQuery update (`$(...)`): the course accordion, or a module's items for the item handlers. |
| `Controllers.ReachIsFirstFailure` | controllers/asyncqueue.py:29-33 | The number of pushes that reach a socket is the position of the first push whose send fails on it, or all of them exactly when none fails. |
| `Controllers.SurvivorsMembers` | controllers/asyncqueue.py:29-33 | After a run of pushes, a socket is still listed exactly when it was listed and no push of the run failed on it. |
| `Controllers.PushedStep` | controllers/asyncqueue.py:24-33 | Before the first push the table is unchanged; each push prunes the user's list once more, with its own failing set. |
| `Controllers.FanoutReceived` | controllers/asyncqueue.py:24-33 | Broadcasting a series of scripts, one push after another, to a user with distinct sockets: each of the user's sockets receives the scripts in order, up to the first push whose send fails on it, and nothing after; any other socket receives nothing. |
| `Controllers.Push` | controllers/web_controllers.py:59 | One push of a run: the series sent and the log each grow by one push, and the user's list is pruned once more, with that push's own failing set. |
| `Controllers.PushTag` | controllers/web_controllers.py:59 | The same, for the message of a given kind. |
| `Controllers.FinishUpdateItem` | controllers/web_controllers.py:557-565 | `update_item` pushes hide, then the toast of its outcome; the user's list is pruned push by push. |
| `Controllers.FinishDeleteModule` | controllers/web_controllers.py:267-285 | `delete_module` pushes hide, then the fragment and the success toast on success or the error toast otherwise, then close; the user's list is pruned push by push. |
| `Controllers.FinishOther` | controllers/web_controllers.py:65-83 | The other handlers push the fragment (when their outcome has one), hide, the toast of their outcome and close; the user's list is pruned push by push. |
| `Controllers.Finish` | controllers/web_controllers.py:51-565 | After show-loading, each handler's pushes complete exactly its entry of `PushSequence`, whatever sends fail on the way. |
| `Controllers.Handle` | controllers/web_controllers.py:51-565 | Without a login: a 303 to `/login`, nothing pushed, nothing run. Otherwise the pushed scripts are the handler's push series for its outcome (only show-loading when the operation raises). The commands are the operation's, plus the render's when a fragment was pushed. The response is the handler's redirect, empty body or server error. The user's list is pruned push by push, each push with its own failing sockets. |
| `Controllers.UserSeesPushSequence` | controllers/web_controllers.py:59-83 | Each socket of the user receives the handler's series in order, up to the first push whose send fails on it, and the message kinds can be read back from what arrived. A socket no push fails on receives the whole series. |
| `Controllers.RunJsRepliesShape` | controllers/web_controllers.py:577-583 | One push per `run-js` frame and none for any other frame, always the `console.log` script. |
| `Controllers.WebsocketSession` | controllers/web_controllers.py:568-588 | The socket is registered, every `run-js` frame is answered with one push to the user, each with its own failing sockets, and the socket is unregistered in `finally`. The final table and key order are exactly those steps'. |
| `Controllers.TemplateNames` | controllers/web_controllers.py:484-492 | Each supported content type has the page `view-item/view-<type>.html`, any other type gets `view-item/view-item.html`. |
| `Controllers.ViewItemPage` | controllers/web_controllers.py:464-502 | A page is shown exactly when the user is logged in and details came back, with the template of the content type; otherwise the login redirect or a redirect to the module page. |
| `CourseDownload.Find` | controllers/web_controllers.py:629 | A reported position is an occurrence of the separator. |
| `CourseDownload.FindIsFirst` | controllers/web_controllers.py:629 | The reported occurrence is the first, and none is reported exactly when there is none. |
| `CourseDownload.SplitCount` | controllers/web_controllers.py:631-636 | `split` gives one part more than `count`: `len(parts) >= 3` exactly when `count >= 2`. |
| `CourseDownload.SplitJoin` | controllers/web_controllers.py:634 | Joining the parts with the marker gives back the text. |
| `CourseDownload.SplitPartsFree` | controllers/web_controllers.py:634 | No part holds the marker. |
| `CourseDownload.ContainsIffCounted` | controllers/web_controllers.py:629-632 | The `in` test and `count >= 1` agree. |
| `CourseDownload.SpliceWhen` | controllers/web_controllers.py:629-656 | A file is rewritten exactly when it has two markers and the blob between the first two decodes, to `parts[0] + decoded + parts[2]`. |
| `CourseDownload.SpliceTwoMarkers` | controllers/web_controllers.py:634-646 | `a@@@@@@@@@@b@@@@@@@@@@c` becomes `a`, the decoded `b`, then `c`, or stays as it is when `b` does not decode. |
| `CourseDownload.SpliceDropsAfterThirdMarker` | controllers/web_controllers.py:644-646 | Any text after a third marker is lost from the rewritten file. |
| `CourseDownload.RewritesExactly` | controllers/web_controllers.py:614-660 | The writes are exactly the readable files other than `table_inspect.html` whose content splices and whose write succeeds, one write each with the spliced content, in walk order (their walk positions strictly increase). |
| `CourseDownload.RewriteFiles` | controllers/web_controllers.py:611-660 | The walk loop with its nested checks performs exactly those writes, and lists as changed the paths whose write succeeded. |

## Left out

- Concurrency: asyncio scheduling, interleaved handlers and double submissions are not modelled. Each handler and each connection is one sequential run. A broadcast racing `remove_websocket` is a concurrency effect.
- `Registry.AsyncQueue.constructor`: the unused `asyncio.Queue()` field is not modelled.
- The websocket transport: it is not modelled.
  - `send_json` failures are a set of sockets per broadcast (`failing`), and, for the pushes of a handler or a session, one such set per push (`failures(k)`).
  - `receive_text` and `json.loads` of inbound frames become the sequence of `event` fields received before the connection ends.
  - A malformed frame is the end of that sequence.
  - `accept()` and the unused `UserState` are not modelled.
- Subprocesses and the filesystem: the CLI process is the `cli` oracle and JSON parsing is the `parseCourse`/`parseDetails` oracles. The filesystem is the sets of existing paths and directories and the directory listing. File reads become `FileEntry.content`, and the file writes of `download_course` become the returned write list.
- Rendering from unchanged state: the fragment a handler renders is computed from the same `Env` as its operation, not from the state after the mutation, since the oracle is static.
- `update_course_name` and `delete_course` (rename and `rmtree` of the course directory) are filesystem effects. `Mutation` models them as operations that run no command and whose result the handlers ignore.
- `download_course` after the rewrite: the `list`/`package` commands, the zip lookup and the responses are left out, because they are subprocess and filesystem effects with no logic beyond the oracle. Its login gate and the missing-directory check are not modelled either.
- Jinja2 rendering of `course_accordion` and `module_items_display` is the renderer parameters of `Handle`; template files are not modelled.
- Number parsing: `int()` of the position and `float()` of the points are the `toInt`/`toPoints` oracles. The points are modelled as an integer, so the `str(float)` text that quizzes would pass (models/courses.py:323) is not modelled.
- `Text.UpperShape` covers ASCII letters only; Unicode case mapping is not modelled.
- Paths: `os.path.join` is `dir + "/" + name`, or the name alone when it is absolute. Other normalisation is not modelled.
- The login page, `login`, `logout`, `/submit`, `view_module`, the index page and the `course_names` property are page wiring, not part of this model. Their logic reduces to the gates, the broadcasts and the listing above.
- FastAPI routing, session middleware, response objects and `print` logging are not modelled. `print` has no effect on the results.
- `Handle` models an exception raised by a handler as a server error response; the exception's text is not modelled.
- `Controllers.Handle`: runs the corrected course call `Mutation`. As written, `edit_module`, and `add_course` on an existing course, raise after show-loading; that behaviour is `MutationAsWritten`, and `EditModuleStuckAsWritten` and `AddExistingCourseStuckAsWritten` state the pushes it leaves (see "## Findings").
- `CourseDownload.RewriteFiles`: a write that raises is modelled as writing nothing; a file that `open(..., "w")` truncated before the write failed is not modelled.
- `models/user_state.py` is not part of this model: it is a record with a default message and no logic.
- Base64 and UTF-8 decoding (section 4 of RFC 4648) are the abstract partial function `decode`.

## Findings

| source | as written | input that shows it | evidently intended | confidence | as-written member | corrected member |
|---|---|---|---|---|---|---|
| controllers/web_controllers.py:234 | `edit_module` calls `courses.update_module_name`, which `Courses` does not define, so it raises after show-loading and the overlay stays on screen | a logged-in POST to `/edit-module/C/M` with form field `module_name` = `N` | rename the module M to N (as `update_module` does) and finish the push series | not executed | `Controllers.EditModuleStuckAsWritten` | `Controllers.CorrectedNeverStuck` |
| controllers/web_controllers.py:63 | `add_course` unpacks the result of `Courses.add_course`, which is `None` when the course directory already exists (models/courses.py:79-80), so it raises after show-loading | a logged-in POST to `/add-course` with the name of an existing course | report a failure: hide the overlay, error toast, close the modal | not executed | `Controllers.AddExistingCourseStuckAsWritten` | `Controllers.CorrectedNeverStuck` |

`Controllers.MutationAsWritten` is the handlers' course call as written. `Controllers.Mutation` is the corrected one, and it is what `Handle` runs. `Controllers.CorrectionIsLocal` proves that the two differ only in these two cases.
