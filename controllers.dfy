/**
 * The action handlers of the web controllers: each POST handler pushes a
 * fixed series of JavaScript snippets to the logged-in user's sockets
 * (show the loading overlay, maybe replace a fragment of the page, hide the
 * overlay, a toast, close the modal) around one call into the course layer.
 * Also: the keyword arguments `update_item` builds from its form, the
 * websocket endpoint's receive loop and the template choice of `view_item`.
 */
module Controllers {
  import opened Wrappers
  import opened Registry
  import Auth
  import Courses

  // ----- the pushed scripts -----

  const ShowJs: string := "$.LoadingOverlay(\"show\");"
  const HideJs: string := "$.LoadingOverlay(\"hide\", true);"
  const SuccessJs: string := "alertify.success(\"Success\");"
  const ErrorJs: string := "alertify.error(\"Error, please check logs\");"
  /** Written in pieces only so that the verifier can read off its first characters. */
  const CloseJs: string := " $('" + ".jquery-modal.blocker.current')" + ".remove(); "
  /** What the websocket endpoint pushes back for a `run-js` event. */
  const ConsoleJs: string := "console.log('server connection established')"

  /** The element the course handlers replace: the course accordion of the index page. */
  const CourseSelector: string := "div.demo-container"
  /** The element the item handlers replace: the item list of the module page. */
  const ItemsSelector: string := "div.module-items-container"

  /**
   * `$("<selector>").html(`<html>`);`: a jQuery fragment update that ends
   * with the rendered HTML, intact, before the closing "`);".
   */
  function FragmentJs(selector: string, html: string): (r: string)
    ensures IsFragmentJs(r)
    ensures |r| >= |html| + 3 && r[|r| - |html| - 3..|r| - 3] == html
  {
    var head := "$(" + "\"" + selector + "\").html(`";
    var r := head + html + "`);";
    assert r[..2] == head[..2] == "$(";
    assert r[|head|..|head| + |html|] == html;
    r
  }

  /** A jQuery fragment update: the script starts with `$(`. */
  predicate IsFragmentJs(js: string) {
    |js| >= 2 && js[0] == '$' && js[1] == '('
  }

  /** The kinds of message a handler pushes. */
  datatype Tag = ShowLoading | Fragment | HideLoading | SuccessToast | ErrorToast | CloseModal

  function ScriptOf(t: Tag, fragment: string): string {
    match t
    case ShowLoading => ShowJs
    case Fragment => fragment
    case HideLoading => HideJs
    case SuccessToast => SuccessJs
    case ErrorToast => ErrorJs
    case CloseModal => CloseJs
  }

  function Scripts(tags: seq<Tag>, fragment: string): seq<string> {
    seq(|tags|, i requires 0 <= i < |tags| => ScriptOf(tags[i], fragment))
  }

  /** How the browser tells the pushed scripts apart. */
  function TagOf(js: string): Tag {
    if js == ShowJs then ShowLoading
    else if js == HideJs then HideLoading
    else if js == SuccessJs then SuccessToast
    else if js == ErrorJs then ErrorToast
    else if js == CloseJs then CloseModal
    else Fragment
  }

  function TagsOf(scripts: seq<string>): seq<Tag> {
    seq(|scripts|, i requires 0 <= i < |scripts| => TagOf(scripts[i]))
  }

  lemma FragmentsAreDistinct(frag: string)
    requires IsFragmentJs(frag)
    ensures frag != ShowJs && frag != HideJs && frag != SuccessJs && frag != ErrorJs && frag != CloseJs
  {
    assert ShowJs[1] == '.' && HideJs[1] == '.' && SuccessJs[1] == 'l' && ErrorJs[1] == 'l' && CloseJs[1] == '$';
  }

  /** Each pushed script names its message kind unambiguously. */
  lemma TagRoundTrip(t: Tag, frag: string)
    requires IsFragmentJs(frag)
    ensures TagOf(ScriptOf(t, frag)) == t
  {
    FragmentsAreDistinct(frag);
    assert HideJs[0] == '$' && SuccessJs[0] == 'a' && ErrorJs[0] == 'a' && CloseJs[0] == ' ';
    assert SuccessJs[9] == 's' && ErrorJs[9] == 'e';
  }

  /** The series of messages can be read back from the series of scripts. */
  lemma ScriptsDecode(tags: seq<Tag>, frag: string)
    requires IsFragmentJs(frag)
    ensures TagsOf(Scripts(tags, frag)) == tags
  {
    forall i | 0 <= i < |tags|
      ensures TagsOf(Scripts(tags, frag))[i] == tags[i]
    {
      TagRoundTrip(tags[i], frag);
    }
  }

  // ----- the handlers and their push tables -----

  datatype Handler = AddCourse | EditCourse | DeleteCourse | AddModule | UpdateModule | EditModule
                   | DeleteModule | AddItem | DeleteItem | CopyItem | UpdateItem

  /** The form fields of a request, by field name. */
  type Form = map<string, string>

  /** One POST request to an action handler, with its path and form parameters. */
  datatype Action =
    | AddCourseRequest(courseName: string)
    | EditCourseRequest(courseName: string, newCourseName: string)
    | DeleteCourseRequest(courseName: string)
    | AddModuleRequest(courseName: string, moduleName: string)
    | UpdateModuleRequest(courseName: string, moduleTitle: string, newTitle: string, position: Option<int>)
    | EditModuleRequest(courseName: string, moduleName: string, newModuleName: string)
    | DeleteModuleRequest(courseName: string, moduleName: string)
    | AddItemRequest(courseName: string, moduleName: string, itemTitle: string, contentType: string)
    | DeleteItemRequest(courseName: string, moduleName: string, itemTitle: string, contentType: string)
    | CopyItemRequest(courseName: string, moduleName: string, itemTitle: string, contentType: string, destinationModule: string)
    | UpdateItemRequest(courseName: string, moduleName: string, itemTitle: string, contentType: string, form: Form)

  function KindOf(a: Action): Handler {
    match a
    case AddCourseRequest(_) => AddCourse
    case EditCourseRequest(_, _) => EditCourse
    case DeleteCourseRequest(_) => DeleteCourse
    case AddModuleRequest(_, _) => AddModule
    case UpdateModuleRequest(_, _, _, _) => UpdateModule
    case EditModuleRequest(_, _, _) => EditModule
    case DeleteModuleRequest(_, _) => DeleteModule
    case AddItemRequest(_, _, _, _) => AddItem
    case DeleteItemRequest(_, _, _, _) => DeleteItem
    case CopyItemRequest(_, _, _, _, _) => CopyItem
    case UpdateItemRequest(_, _, _, _, _) => UpdateItem
  }

  /** The handlers that ignore the outcome of their course operation. */
  predicate NeverBranches(h: Handler) {
    h == EditCourse || h == DeleteCourse || h == EditModule
  }

  /** The handlers whose fragment is the course accordion (the others show a module's items). */
  predicate RendersCourses(h: Handler) {
    h == AddCourse || h == EditCourse || h == DeleteCourse || h == AddModule
    || h == UpdateModule || h == EditModule || h == DeleteModule
  }

  /** The messages a handler pushes when its course operation returns `success`. */
  function PushSequence(h: Handler, success: bool): seq<Tag> {
    if h == UpdateItem then [ShowLoading, HideLoading, if success then SuccessToast else ErrorToast]
    else if h == DeleteModule then
      if success then [ShowLoading, HideLoading, Fragment, SuccessToast, CloseModal]
      else [ShowLoading, HideLoading, ErrorToast, CloseModal]
    else if success || NeverBranches(h) then [ShowLoading, Fragment, HideLoading, SuccessToast, CloseModal]
    else [ShowLoading, HideLoading, ErrorToast, CloseModal]
  }

  predicate IsToast(t: Tag) {
    t == SuccessToast || t == ErrorToast
  }

  /** Every toast comes after a hide. */
  predicate ToastsFollowHide(r: seq<Tag>) {
    forall i :: 0 <= i < |r| && IsToast(r[i]) ==> HideLoading in r[..i]
  }

  /** Every fragment update comes after a hide exactly when `after`. */
  predicate FragmentsFollowHide(r: seq<Tag>, after: bool) {
    forall i :: 0 <= i < |r| && r[i] == Fragment ==> (HideLoading in r[..i] <==> after)
  }

  /** Every toast of `r` comes after the hide at `j`, when none comes before it. */
  lemma ToastsAfter(r: seq<Tag>, j: nat)
    requires j < |r| && r[j] == HideLoading
    requires forall i :: 0 <= i < j ==> !IsToast(r[i])
    ensures ToastsFollowHide(r)
  {
    forall i | 0 <= i < |r| && IsToast(r[i])
      ensures HideLoading in r[..i]
    {
      assert r[..i][j] == HideLoading;
    }
  }

  /** The only fragment update of `r`, at `k`, comes after a hide exactly when `after`. */
  lemma FragmentAt(r: seq<Tag>, k: nat, after: bool)
    requires k < |r| && r[k] == Fragment
    requires forall i :: 0 <= i < |r| && i != k ==> r[i] != Fragment
    requires HideLoading in r[..k] <==> after
    ensures FragmentsFollowHide(r, after)
  {
  }

  // How often each message occurs in each of the five series `PushSequence` returns.

  /** `update_item` when the update succeeds. */
  lemma UpdatedCounts()
    ensures var r := [ShowLoading, HideLoading, SuccessToast];
      multiset(r)[ShowLoading] == 1 && multiset(r)[Fragment] == 0 && multiset(r)[HideLoading] == 1 && multiset(r)[SuccessToast] == 1 && multiset(r)[ErrorToast] == 0 && multiset(r)[CloseModal] == 0
  {
  }

  /** `update_item` when the update fails. */
  lemma NotUpdatedCounts()
    ensures var r := [ShowLoading, HideLoading, ErrorToast];
      multiset(r)[ShowLoading] == 1 && multiset(r)[Fragment] == 0 && multiset(r)[HideLoading] == 1 && multiset(r)[SuccessToast] == 0 && multiset(r)[ErrorToast] == 1 && multiset(r)[CloseModal] == 0
  {
  }

  /** `delete_module` when the deletion succeeds. */
  lemma ModuleDeletedCounts()
    ensures var r := [ShowLoading, HideLoading, Fragment, SuccessToast, CloseModal];
      multiset(r)[ShowLoading] == 1 && multiset(r)[Fragment] == 1 && multiset(r)[HideLoading] == 1 && multiset(r)[SuccessToast] == 1 && multiset(r)[ErrorToast] == 0 && multiset(r)[CloseModal] == 1
  {
  }

  /** Every other handler on its failure path. */
  lemma FailedCounts()
    ensures var r := [ShowLoading, HideLoading, ErrorToast, CloseModal];
      multiset(r)[ShowLoading] == 1 && multiset(r)[Fragment] == 0 && multiset(r)[HideLoading] == 1 && multiset(r)[SuccessToast] == 0 && multiset(r)[ErrorToast] == 1 && multiset(r)[CloseModal] == 1
  {
  }

  /** Every other handler on its success path. */
  lemma SucceededCounts()
    ensures var r := [ShowLoading, Fragment, HideLoading, SuccessToast, CloseModal];
      multiset(r)[ShowLoading] == 1 && multiset(r)[Fragment] == 1 && multiset(r)[HideLoading] == 1 && multiset(r)[SuccessToast] == 1 && multiset(r)[ErrorToast] == 0 && multiset(r)[CloseModal] == 1
  {
  }

  // One lemma per property of the five series `PushSequence` returns; the
  // lemmas after them combine these.

  /** Show-loading comes first and once, and hide-loading once. */
  lemma OverlayCounts(h: Handler, success: bool)
    ensures var r := PushSequence(h, success);
      |r| >= 3 && r[0] == ShowLoading && multiset(r)[ShowLoading] == 1 && multiset(r)[HideLoading] == 1
  {
    var r := PushSequence(h, success);
    if h == UpdateItem && success {
      assert r == [ShowLoading, HideLoading, SuccessToast];
      UpdatedCounts();
    } else if h == UpdateItem {
      assert r == [ShowLoading, HideLoading, ErrorToast];
      NotUpdatedCounts();
    } else if h == DeleteModule && success {
      assert r == [ShowLoading, HideLoading, Fragment, SuccessToast, CloseModal];
      ModuleDeletedCounts();
    } else if h == DeleteModule || !(success || NeverBranches(h)) {
      assert r == [ShowLoading, HideLoading, ErrorToast, CloseModal];
      FailedCounts();
    } else {
      assert r == [ShowLoading, Fragment, HideLoading, SuccessToast, CloseModal];
      SucceededCounts();
    }
  }

  /** One toast in every series. */
  lemma ToastCount(h: Handler, success: bool)
    ensures var r := PushSequence(h, success);
      multiset(r)[SuccessToast] + multiset(r)[ErrorToast] == 1
  {
    var r := PushSequence(h, success);
    if h == UpdateItem && success {
      assert r == [ShowLoading, HideLoading, SuccessToast];
      UpdatedCounts();
    } else if h == UpdateItem {
      assert r == [ShowLoading, HideLoading, ErrorToast];
      NotUpdatedCounts();
    } else if h == DeleteModule && success {
      assert r == [ShowLoading, HideLoading, Fragment, SuccessToast, CloseModal];
      ModuleDeletedCounts();
    } else if h == DeleteModule || !(success || NeverBranches(h)) {
      assert r == [ShowLoading, HideLoading, ErrorToast, CloseModal];
      FailedCounts();
    } else {
      assert r == [ShowLoading, Fragment, HideLoading, SuccessToast, CloseModal];
      SucceededCounts();
    }
  }

  /** The toast is the success toast exactly on the success path. */
  lemma ToastKind(h: Handler, success: bool)
    ensures var r := PushSequence(h, success);
      SuccessToast in r <==> success || NeverBranches(h)
  {
    var r := PushSequence(h, success);
    if h == UpdateItem && success {
      assert r == [ShowLoading, HideLoading, SuccessToast];
    } else if h == UpdateItem {
      assert r == [ShowLoading, HideLoading, ErrorToast];
    } else if h == DeleteModule && success {
      assert r == [ShowLoading, HideLoading, Fragment, SuccessToast, CloseModal];
    } else if h == DeleteModule || !(success || NeverBranches(h)) {
      assert r == [ShowLoading, HideLoading, ErrorToast, CloseModal];
    } else {
      assert r == [ShowLoading, Fragment, HideLoading, SuccessToast, CloseModal];
    }
  }

  /** The toast comes after the hide. */
  lemma ToastOrder(h: Handler, success: bool)
    ensures var r := PushSequence(h, success);
      ToastsFollowHide(r)
  {
    var r := PushSequence(h, success);
    if h == UpdateItem && success {
      assert r == [ShowLoading, HideLoading, SuccessToast];
      ToastsAfter(r, 1);
    } else if h == UpdateItem {
      assert r == [ShowLoading, HideLoading, ErrorToast];
      ToastsAfter(r, 1);
    } else if h == DeleteModule && success {
      assert r == [ShowLoading, HideLoading, Fragment, SuccessToast, CloseModal];
      ToastsAfter(r, 1);
    } else if h == DeleteModule || !(success || NeverBranches(h)) {
      assert r == [ShowLoading, HideLoading, ErrorToast, CloseModal];
      ToastsAfter(r, 1);
    } else {
      assert r == [ShowLoading, Fragment, HideLoading, SuccessToast, CloseModal];
      ToastsAfter(r, 2);
    }
  }

  /** A fragment update exactly on the success path of a handler other than `update_item`. */
  lemma FragmentShown(h: Handler, success: bool)
    ensures var r := PushSequence(h, success);
      Fragment in r <==> (success || NeverBranches(h)) && h != UpdateItem
  {
    var r := PushSequence(h, success);
    if h == UpdateItem && success {
      assert r == [ShowLoading, HideLoading, SuccessToast];
    } else if h == UpdateItem {
      assert r == [ShowLoading, HideLoading, ErrorToast];
    } else if h == DeleteModule && success {
      assert r == [ShowLoading, HideLoading, Fragment, SuccessToast, CloseModal];
    } else if h == DeleteModule || !(success || NeverBranches(h)) {
      assert r == [ShowLoading, HideLoading, ErrorToast, CloseModal];
    } else {
      assert r == [ShowLoading, Fragment, HideLoading, SuccessToast, CloseModal];
    }
  }

  /** At most one fragment update in every series. */
  lemma FragmentCount(h: Handler, success: bool)
    ensures var r := PushSequence(h, success);
      multiset(r)[Fragment] <= 1
  {
    var r := PushSequence(h, success);
    if h == UpdateItem && success {
      assert r == [ShowLoading, HideLoading, SuccessToast];
      UpdatedCounts();
    } else if h == UpdateItem {
      assert r == [ShowLoading, HideLoading, ErrorToast];
      NotUpdatedCounts();
    } else if h == DeleteModule && success {
      assert r == [ShowLoading, HideLoading, Fragment, SuccessToast, CloseModal];
      ModuleDeletedCounts();
    } else if h == DeleteModule || !(success || NeverBranches(h)) {
      assert r == [ShowLoading, HideLoading, ErrorToast, CloseModal];
      FailedCounts();
    } else {
      assert r == [ShowLoading, Fragment, HideLoading, SuccessToast, CloseModal];
      SucceededCounts();
    }
  }

  /** The fragment update follows the hide only in `delete_module`. */
  lemma FragmentOrder(h: Handler, success: bool)
    ensures var r := PushSequence(h, success);
      FragmentsFollowHide(r, h == DeleteModule)
  {
    var r := PushSequence(h, success);
    if h == UpdateItem && success {
      assert r == [ShowLoading, HideLoading, SuccessToast];
    } else if h == UpdateItem {
      assert r == [ShowLoading, HideLoading, ErrorToast];
    } else if h == DeleteModule && success {
      assert r == [ShowLoading, HideLoading, Fragment, SuccessToast, CloseModal];
      assert r[..2][1] == HideLoading;
      FragmentAt(r, 2, true);
    } else if h == DeleteModule || !(success || NeverBranches(h)) {
      assert r == [ShowLoading, HideLoading, ErrorToast, CloseModal];
    } else {
      assert r == [ShowLoading, Fragment, HideLoading, SuccessToast, CloseModal];
      assert r[..1] == [ShowLoading];
      FragmentAt(r, 1, false);
    }
  }

  /** The modal is closed last and once, by every handler but `update_item`. */
  lemma ModalCount(h: Handler, success: bool)
    ensures var r := PushSequence(h, success);
      (CloseModal in r <==> h != UpdateItem) && (h != UpdateItem ==> r[|r| - 1] == CloseModal && multiset(r)[CloseModal] == 1)
  {
    var r := PushSequence(h, success);
    if h == UpdateItem && success {
      assert r == [ShowLoading, HideLoading, SuccessToast];
      UpdatedCounts();
    } else if h == UpdateItem {
      assert r == [ShowLoading, HideLoading, ErrorToast];
      NotUpdatedCounts();
    } else if h == DeleteModule && success {
      assert r == [ShowLoading, HideLoading, Fragment, SuccessToast, CloseModal];
      ModuleDeletedCounts();
    } else if h == DeleteModule || !(success || NeverBranches(h)) {
      assert r == [ShowLoading, HideLoading, ErrorToast, CloseModal];
      FailedCounts();
    } else {
      assert r == [ShowLoading, Fragment, HideLoading, SuccessToast, CloseModal];
      SucceededCounts();
    }
  }

  /** The loading overlay is shown first, once, and hidden exactly once. */
  lemma OverlayShownAndHidden(h: Handler, success: bool)
    ensures var r := PushSequence(h, success);
      && |r| >= 3 && r[0] == ShowLoading
      && multiset(r)[ShowLoading] == 1 && multiset(r)[HideLoading] == 1
  {
    OverlayCounts(h, success);
  }

  /**
   * Exactly one toast, and it follows the hide; it is the success toast
   * exactly when the operation succeeded or its outcome is not inspected.
   */
  lemma ToastMatchesOutcome(h: Handler, success: bool)
    ensures var r := PushSequence(h, success);
      && multiset(r)[SuccessToast] + multiset(r)[ErrorToast] == 1
      && (SuccessToast in r <==> success || NeverBranches(h))
      && (forall i :: 0 <= i < |r| && IsToast(r[i]) ==> HideLoading in r[..i])
  {
    ToastCount(h, success);
    ToastKind(h, success);
    ToastOrder(h, success);
  }

  /**
   * A fragment update is pushed, once, exactly on the success path of a
   * handler other than `update_item`; it comes after the hide only in
   * `delete_module`.
   */
  lemma FragmentPlacement(h: Handler, success: bool)
    ensures var r := PushSequence(h, success);
      && (Fragment in r <==> (success || NeverBranches(h)) && h != UpdateItem)
      && multiset(r)[Fragment] <= 1
      && (forall i :: 0 <= i < |r| && r[i] == Fragment ==> (HideLoading in r[..i] <==> h == DeleteModule))
  {
    FragmentShown(h, success);
    FragmentCount(h, success);
    FragmentOrder(h, success);
  }

  /** Every handler but `update_item` ends by closing the modal, once. */
  lemma ModalClosed(h: Handler, success: bool)
    ensures var r := PushSequence(h, success);
      && (CloseModal in r <==> h != UpdateItem)
      && (h != UpdateItem ==> r[|r| - 1] == CloseModal && multiset(r)[CloseModal] == 1)
  {
    ModalCount(h, success);
  }

  /** `edit_course`, `delete_course` and `edit_module` push the same series whatever the outcome. */
  lemma UninspectedOutcome(h: Handler)
    requires NeverBranches(h)
    ensures PushSequence(h, true) == PushSequence(h, false) == [ShowLoading, Fragment, HideLoading, SuccessToast, CloseModal]
  {
  }

  // ----- the course operations behind the handlers -----

  /** What the handler's call into the course layer did: returned a success flag, or raised. */
  datatype Outcome = Done(success: bool) | Raised

  /** The messages a handler pushes: after an exception only the first, show-loading, has gone out. */
  function Observed(h: Handler, o: Outcome): seq<Tag> {
    if o.Raised? then [ShowLoading] else PushSequence(h, o.success)
  }

  /** The defaults `add_item` passes for the extra item fields. */
  const AddItemDefaults: Courses.ItemFields := Courses.ItemFields(Some("Default content"), Some("Default description"), Some(10))

  /**
   * The course operation each handler runs, as the handlers are written:
   * `edit_module` calls `update_module_name`, which the course layer does not
   * define, and `add_course` unpacks the `None` that `Courses.add_course`
   * returns for an existing course; both raise after show-loading.
   */
  function MutationAsWritten(env: Courses.Env, a: Action, toInt: string -> Option<int>, toPoints: string -> Option<int>): Courses.Traced<Outcome> {
    match a
    case AddCourseRequest(c) =>
      var r := Courses.AddCourse(env, c, None, None);
      Courses.Traced(if r.value.None? then Raised else Done(r.value.value.success), r.commands)
    case EditModuleRequest(_, _, _) => Courses.Traced(Raised, [])
    case _ => Mutation(env, a, toInt, toPoints)
  }

  /**
   * The course operation each handler runs, with the two crashes corrected:
   * an existing course is reported as a failed `add_course`, and `edit_module`
   * renames the module through `update_module` without inspecting the result.
   * `edit_course` and `delete_course` rename or remove the course directory
   * and run no command. `update_item` raises when its position or points
   * field does not parse as a number.
   */
  function Mutation(env: Courses.Env, a: Action, toInt: string -> Option<int>, toPoints: string -> Option<int>): Courses.Traced<Outcome> {
    match a
    case AddCourseRequest(c) =>
      var r := Courses.AddCourse(env, c, None, None);
      Courses.Traced(Done(r.value.Some? && r.value.value.success), r.commands)
    case EditCourseRequest(_, _) => Courses.Traced(Done(true), [])
    case DeleteCourseRequest(_) => Courses.Traced(Done(true), [])
    case AddModuleRequest(c, m) => Reported(Courses.AddModule(env, c, m))
    case UpdateModuleRequest(c, t, nt, p) => Reported(Courses.UpdateModule(env, c, t, nt, p))
    case EditModuleRequest(c, m, nm) => Courses.Traced(Done(true), Courses.UpdateModule(env, c, m, nm, None).commands)
    case DeleteModuleRequest(c, m) => Reported(Courses.DeleteModule(env, c, m))
    case AddItemRequest(c, m, t, ct) => Reported(Courses.AddModuleItem(env, c, m, t, ct, AddItemDefaults))
    case DeleteItemRequest(c, m, t, ct) => Reported(Courses.DeleteModuleItem(env, c, m, t, ct))
    case CopyItemRequest(_, _, _, _, _) =>
      Reported(Courses.CopyItem(env, a.courseName, a.itemTitle, a.destinationModule, a.contentType))
    case UpdateItemRequest(c, m, t, ct, form) =>
      match UpdateKwargs(ct, form, toInt, toPoints)
      case None => Courses.Traced(Raised, [])
      case Some(kw) => Reported(Courses.UpdateModuleItem(env, c, m, t, ct, kw))
  }

  function Reported(r: Courses.Traced<Courses.Reply>): Courses.Traced<Outcome> {
    Courses.Traced(Done(r.value.success), r.commands)
  }

  /**
   * As written, `edit_module` leaves the loading overlay on screen for good:
   * only show-loading is pushed, and the module is not renamed.
   */
  lemma EditModuleStuckAsWritten(env: Courses.Env, a: Action, toInt: string -> Option<int>, toPoints: string -> Option<int>)
    requires a.EditModuleRequest?
    ensures Observed(KindOf(a), MutationAsWritten(env, a, toInt, toPoints).value) == [ShowLoading]
    ensures MutationAsWritten(env, a, toInt, toPoints).commands == []
  {
  }

  /** As written, adding a course that already exists leaves the overlay on screen. */
  lemma AddExistingCourseStuckAsWritten(env: Courses.Env, a: Action, toInt: string -> Option<int>, toPoints: string -> Option<int>)
    requires a.AddCourseRequest? && Courses.CartridgePath(a.courseName) in env.existing
    ensures Observed(KindOf(a), MutationAsWritten(env, a, toInt, toPoints).value) == [ShowLoading]
  {
    Courses.AddCourseFlags(env, a.courseName, None, None);
  }

  /**
   * Corrected, no handler raises except `update_item` on a malformed number,
   * so the overlay is always hidden; `edit_module` runs the module rename,
   * and adding an existing course reports an error and runs nothing.
   */
  lemma CorrectedNeverStuck(env: Courses.Env, a: Action, toInt: string -> Option<int>, toPoints: string -> Option<int>)
    ensures Mutation(env, a, toInt, toPoints).value.Raised? ==>
      a.UpdateItemRequest? && UpdateKwargs(a.contentType, a.form, toInt, toPoints).None?
    ensures Mutation(env, a, toInt, toPoints).value.Done? ==>
      HideLoading in Observed(KindOf(a), Mutation(env, a, toInt, toPoints).value)
    ensures a.EditModuleRequest? ==>
      Mutation(env, a, toInt, toPoints).commands == Courses.UpdateModule(env, a.courseName, a.moduleName, a.newModuleName, None).commands
    ensures a.AddCourseRequest? && Courses.CartridgePath(a.courseName) in env.existing ==>
      Mutation(env, a, toInt, toPoints) == Courses.Traced(Done(false), [])
  {
    var o := Mutation(env, a, toInt, toPoints).value;
    if o.Done? {
      OverlayShownAndHidden(KindOf(a), o.success);
    }
    if a.AddCourseRequest? {
      Courses.AddCourseFlags(env, a.courseName, None, None);
    }
  }

  /** Everywhere else the corrected and the written handlers agree. */
  lemma CorrectionIsLocal(env: Courses.Env, a: Action, toInt: string -> Option<int>, toPoints: string -> Option<int>)
    requires !a.EditModuleRequest?
    requires !(a.AddCourseRequest? && Courses.CartridgePath(a.courseName) in env.existing)
    ensures MutationAsWritten(env, a, toInt, toPoints) == Mutation(env, a, toInt, toPoints)
  {
    if a.AddCourseRequest? {
      Courses.AddCourseFlags(env, a.courseName, None, None);
    }
  }

  // ----- update_item's keyword arguments -----

  /** Python truthiness of a form field: present and non-empty. */
  predicate Filled(form: Form, field: string) {
    field in form && form[field] != ""
  }

  /**
   * The keyword arguments `update_item` passes on, or `None` when `int()` of
   * the position or `float()` of the points raises. `toInt` and `toPoints`
   * stand for those conversions.
   */
  function UpdateKwargs(contentType: string, form: Form, toInt: string -> Option<int>, toPoints: string -> Option<int>): Option<Courses.ItemUpdate> {
    var takesContent := contentType == "WikiPage" || contentType == "Assignment" || contentType == "DiscussionTopic" || contentType == "File";
    var takesPoints := contentType == "Assignment" || contentType == "Quiz";
    var position := if Filled(form, "position") then toInt(form["position"]) else None;
    var points := if takesPoints && Filled(form, "points") then toPoints(form["points"]) else None;
    if (Filled(form, "position") && position.None?) || (takesPoints && Filled(form, "points") && points.None?) then None
    else Some(Courses.ItemUpdate(
      if "item_title" in form then Some(form["item_title"]) else None,
      if takesContent && "content" in form then Some(form["content"]) else None,
      if contentType == "Quiz" && "description" in form then Some(form["description"]) else None,
      if contentType == "File" && "new_filename" in form then Some(form["new_filename"]) else None,
      points,
      position))
  }

  /** The `kwargs = {}` dictionary filled key by key, content type by content type. */
  method BuildUpdateKwargs(contentType: string, form: Form, toInt: string -> Option<int>, toPoints: string -> Option<int>)
    returns (kwargs: Option<Courses.ItemUpdate>)
    ensures kwargs == UpdateKwargs(contentType, form, toInt, toPoints)
  {
    var kw := Courses.ItemUpdate(None, None, None, None, None, None);
    if "item_title" in form {
      kw := kw.(newTitle := Some(form["item_title"]));
    }
    if "position" in form && form["position"] != "" {
      var n := toInt(form["position"]);
      if n.None? {
        return None;
      }
      kw := kw.(position := n);
    }
    if contentType == "WikiPage" {
      if "content" in form {
        kw := kw.(content := Some(form["content"]));
      }
    } else if contentType == "Assignment" {
      if "content" in form {
        kw := kw.(content := Some(form["content"]));
      }
      if "points" in form && form["points"] != "" {
        var p := toPoints(form["points"]);
        if p.None? {
          return None;
        }
        kw := kw.(points := p);
      }
    } else if contentType == "DiscussionTopic" {
      if "content" in form {
        kw := kw.(content := Some(form["content"]));
      }
    } else if contentType == "Quiz" {
      if "description" in form {
        kw := kw.(description := Some(form["description"]));
      }
      if "points" in form && form["points"] != "" {
        var p := toPoints(form["points"]);
        if p.None? {
          return None;
        }
        kw := kw.(points := p);
      }
    } else if contentType == "File" {
      if "new_filename" in form {
        kw := kw.(newFilename := Some(form["new_filename"]));
      }
      if "content" in form {
        kw := kw.(content := Some(form["content"]));
      }
    }
    kwargs := Some(kw);
  }

  /**
   * Which keyword arguments are passed, each with the form's value: the new
   * title exactly when the form has `item_title`, the parsed position
   * exactly when it is filled in; the content exactly for wiki pages,
   * assignments, discussion topics and files, the description exactly for
   * quizzes, a new file name exactly for files, the parsed points exactly
   * when filled in for assignments and quizzes; any other content type gets
   * the common fields alone.
   */
  lemma KwargsSelection(contentType: string, form: Form, toInt: string -> Option<int>, toPoints: string -> Option<int>)
    requires UpdateKwargs(contentType, form, toInt, toPoints).Some?
    ensures var kw := UpdateKwargs(contentType, form, toInt, toPoints).value;
      && (kw.newTitle.Some? <==> "item_title" in form)
      && (kw.newTitle.Some? ==> kw.newTitle.value == form["item_title"])
      && kw.position == (if Filled(form, "position") then toInt(form["position"]) else None)
      && (Filled(form, "position") ==> kw.position.Some?)
      && (kw.content.Some? <==> contentType in {"WikiPage", "Assignment", "DiscussionTopic", "File"} && "content" in form)
      && (kw.content.Some? ==> kw.content.value == form["content"])
      && (kw.description.Some? <==> contentType == "Quiz" && "description" in form)
      && (kw.description.Some? ==> kw.description.value == form["description"])
      && (kw.newFilename.Some? <==> contentType == "File" && "new_filename" in form)
      && (kw.newFilename.Some? ==> kw.newFilename.value == form["new_filename"])
      && kw.points == (if contentType in {"Assignment", "Quiz"} && Filled(form, "points") then toPoints(form["points"]) else None)
      && (contentType in {"Assignment", "Quiz"} && Filled(form, "points") ==> kw.points.Some?)
      && (contentType !in Courses.ContentTypes ==>
            kw.content.None? && kw.description.None? && kw.newFilename.None? && kw.points.None?)
  {
  }

  /** A filled-in position or points field that does not parse makes `update_item` raise. */
  lemma KwargsRaise(contentType: string, form: Form, toInt: string -> Option<int>, toPoints: string -> Option<int>)
    ensures UpdateKwargs(contentType, form, toInt, toPoints).None? <==>
      (Filled(form, "position") && toInt(form["position"]).None?)
      || ((contentType == "Assignment" || contentType == "Quiz") && Filled(form, "points") && toPoints(form["points"]).None?)
  {
  }

  // ----- the fragment a handler renders -----

  /** `[module.get("title") for module in modules] if modules else []`. */
  function Titles(modules: seq<Courses.Module>): (r: seq<string>)
    ensures |r| == |modules| && forall i :: 0 <= i < |r| ==> r[i] == modules[i].title
  {
    seq(|modules|, i requires 0 <= i < |modules| => modules[i].title)
  }

  /** The course accordion, rendered from the `courses` property. */
  function CoursesFragment(env: Courses.Env, renderCourses: seq<Courses.ListedCourse> -> string): Courses.Traced<string> {
    var listing := Courses.AllCourses(env);
    Courses.Traced(FragmentJs(CourseSelector, renderCourses(listing.value)), listing.commands)
  }

  /** A module's item list, rendered from `get_module_items` and then `get_course_modules`. */
  function ItemsFragment(env: Courses.Env, courseName: string, moduleName: string,
                         renderItems: (seq<Courses.Item>, string, string, seq<string>) -> string): Courses.Traced<string> {
    var items := Courses.GetCourseModules(env, courseName);
    var modules := Courses.GetCourseModules(env, courseName);
    Courses.Traced(
      FragmentJs(ItemsSelector, renderItems(Courses.ModuleItems(items.value, moduleName), courseName, moduleName, Titles(modules.value))),
      items.commands + modules.commands)
  }

  /** The fragment update a handler pushes on its success path. */
  function Render(env: Courses.Env, a: Action, renderCourses: seq<Courses.ListedCourse> -> string,
                  renderItems: (seq<Courses.Item>, string, string, seq<string>) -> string): (r: Courses.Traced<string>)
    ensures IsFragmentJs(r.value)
  {
    match a
    case AddItemRequest(c, m, _, _) => ItemsFragment(env, c, m, renderItems)
    case DeleteItemRequest(c, m, _, _) => ItemsFragment(env, c, m, renderItems)
    case CopyItemRequest(c, m, _, _, _) => ItemsFragment(env, c, m, renderItems)
    case UpdateItemRequest(c, m, _, _, _) => ItemsFragment(env, c, m, renderItems)
    case _ => CoursesFragment(env, renderCourses)
  }

  // ----- what a handler returns -----

  datatype Response = Redirect(url: string, status: int) | NoBody | ServerError | Page(template: string, item: map<string, string>)

  /** The module page an item handler sends the browser back to. */
  function ModulePage(courseName: string, moduleName: string): string {
    "/view_module/" + courseName + "/" + moduleName
  }

  function ResponseOf(a: Action, o: Outcome): Response {
    if o.Raised? then ServerError
    else match a
      case UpdateItemRequest(_, _, _, _, _) => NoBody
      case AddItemRequest(c, m, _, _) => Redirect(ModulePage(c, m), 303)
      case DeleteItemRequest(c, m, _, _) => Redirect(ModulePage(c, m), 303)
      case CopyItemRequest(c, m, _, _, _) => Redirect(ModulePage(c, m), 303)
      case _ => Redirect("/", 303)
  }

  // ----- pushing through the registry -----

  /**
   * Which sends fail is chosen push by push: `failures(k)` are the sockets
   * whose `send_json` raises during the `k`-th push of a run, counting from 0.
   */
  type Failures = nat -> set<SocketId>

  /** A user's list after the first `n` pushes of a run, each pruning the sockets it failed on. */
  function Survivors(s: seq<SocketId>, failures: Failures, n: nat): seq<SocketId> {
    if n == 0 then s else Healthy(Survivors(s, failures, n - 1), failures(n - 1))
  }

  /** The table after the first `n` pushes of a run to `u`. */
  function PushedTable(m: map<Username, seq<SocketId>>, u: Username, failures: Failures, n: nat): map<Username, seq<SocketId>> {
    if u in m then m[u := Survivors(m[u], failures, n)] else m
  }

  /**
   * The delivery log of pushing `scripts` one after the other to a user
   * whose list is `sockets`: push `k` tries every socket the earlier pushes
   * left, and fails on those of `failures(k)`.
   */
  function Fanout(sockets: seq<SocketId>, scripts: seq<string>, failures: Failures): seq<Delivery> {
    if scripts == [] then []
    else
      var k := |scripts| - 1;
      Fanout(sockets, scripts[..k], failures) + Attempts(Survivors(sockets, failures, k), ToEnvelope(Script(scripts[k])), failures(k))
  }

  /** How many of the first `n` pushes reach `ws` before one fails on it. */
  function Reach(ws: SocketId, failures: Failures, n: nat): (r: nat)
    ensures r <= n
  {
    if n == 0 then 0
    else if Reach(ws, failures, n - 1) == n - 1 && ws !in failures(n - 1) then n
    else Reach(ws, failures, n - 1)
  }

  /** `Reach` is the index of the first push that fails on `ws`, or all `n` pushes when none does. */
  lemma {:induction false} ReachIsFirstFailure(ws: SocketId, failures: Failures, n: nat)
    ensures forall j :: 0 <= j < Reach(ws, failures, n) ==> ws !in failures(j)
    ensures Reach(ws, failures, n) < n ==> ws in failures(Reach(ws, failures, n))
    ensures (forall j :: 0 <= j < n ==> ws !in failures(j)) <==> Reach(ws, failures, n) == n
  {
    if n > 0 {
      ReachIsFirstFailure(ws, failures, n - 1);
      var r := Reach(ws, failures, n - 1);
      if !(r == n - 1 && ws !in failures(n - 1)) {
        assert ws in failures(r);
      }
    }
  }

  /** A socket is still listed after `n` pushes exactly when it was listed and none of them failed on it. */
  lemma {:induction false} SurvivorsMembers(s: seq<SocketId>, failures: Failures, n: nat, ws: SocketId)
    ensures ws in Survivors(s, failures, n) <==> ws in s && forall j :: 0 <= j < n ==> ws !in failures(j)
  {
    if n > 0 {
      SurvivorsMembers(s, failures, n - 1, ws);
      HealthyMembers(Survivors(s, failures, n - 1), failures(n - 1), ws);
    }
  }

  lemma {:induction false} SurvivorsDistinct(s: seq<SocketId>, failures: Failures, n: nat)
    requires Distinct(s)
    ensures Distinct(Survivors(s, failures, n))
  {
    if n > 0 {
      SurvivorsDistinct(s, failures, n - 1);
      HealthyDistinct(Survivors(s, failures, n - 1), failures(n - 1));
    }
  }

  lemma {:induction false} SurvivorsOfNone(failures: Failures, n: nat)
    ensures Survivors([], failures, n) == []
  {
    if n > 0 {
      SurvivorsOfNone(failures, n - 1);
    }
  }

  /** Before the first push the table is as it was; push `n` prunes the user's list once more, with `failures(n)`. */
  lemma PushedStep(m: map<Username, seq<SocketId>>, u: Username, failures: Failures, n: nat)
    ensures PushedTable(m, u, failures, 0) == m
    ensures SocketsOf(PushedTable(m, u, failures, n), u) == Survivors(SocketsOf(m, u), failures, n)
    ensures Pruned(PushedTable(m, u, failures, n), u, failures(n)) == PushedTable(m, u, failures, n + 1)
  {
    if u in m {
      assert m[u := m[u]] == m;
    } else {
      SurvivorsOfNone(failures, n);
    }
  }

  /** The envelopes a socket received, in order, according to a delivery log. */
  function Received(log: seq<Delivery>, ws: SocketId): seq<Envelope> {
    if log == [] then []
    else
      var d := log[|log| - 1];
      Received(log[..|log| - 1], ws) + (if d.socket == ws && d.delivered then [d.envelope] else [])
  }

  function Envelopes(scripts: seq<string>): seq<Envelope> {
    seq(|scripts|, i requires 0 <= i < |scripts| => ToEnvelope(Script(scripts[i])))
  }

  lemma EnvelopesSnoc(scripts: seq<string>)
    requires scripts != []
    ensures Envelopes(scripts) == Envelopes(scripts[..|scripts| - 1]) + [ToEnvelope(Script(scripts[|scripts| - 1]))]
  {
  }

  lemma {:induction false} ReceivedAppend(a: seq<Delivery>, b: seq<Delivery>, ws: SocketId)
    ensures Received(a + b, ws) == Received(a, ws) + Received(b, ws)
    decreases |b|
  {
    if b == [] {
      assert a + b == a;
    } else {
      assert (a + b)[..|a + b| - 1] == a + b[..|b| - 1];
      ReceivedAppend(a, b[..|b| - 1], ws);
    }
  }

  lemma {:induction false} ReceivedAttempts(s: seq<SocketId>, env: Envelope, failing: set<SocketId>, ws: SocketId)
    requires Distinct(s)
    ensures Received(Attempts(s, env, failing), ws) == if ws in s && ws !in failing then [env] else []
  {
    if s != [] {
      var init := s[..|s| - 1];
      assert Distinct(init);
      ReceivedAttempts(init, env, failing, ws);
      var log := Attempts(s, env, failing);
      assert log[..|log| - 1] == Attempts(init, env, failing);
      assert s == init + [s[|s| - 1]];
      if ws == s[|s| - 1] {
        assert ws !in init;
      }
    }
  }

  lemma {:induction false} HealthyDistinct(s: seq<SocketId>, failing: set<SocketId>)
    requires Distinct(s)
    ensures Distinct(Healthy(s, failing))
  {
    if s != [] {
      var init, last := s[..|s| - 1], s[|s| - 1];
      assert Distinct(init);
      HealthyDistinct(init, failing);
      HealthyMembers(init, failing, last);
      assert last !in init;
    }
  }

  /**
   * Pushing a series of scripts to a user whose sockets are distinct: each
   * of the user's sockets receives the series in order up to the first push
   * that fails on it, and nothing after; another socket receives nothing.
   */
  lemma {:induction false} FanoutReceived(s: seq<SocketId>, scripts: seq<string>, failures: Failures, ws: SocketId)
    requires Distinct(s)
    ensures Received(Fanout(s, scripts, failures), ws)
         == if ws in s then Envelopes(scripts[..Reach(ws, failures, |scripts|)]) else []
  {
    if scripts != [] {
      var k := |scripts| - 1;
      FanoutReceived(s, scripts[..k], failures, ws);
      FanoutReceivedStep(s, scripts, failures, ws);
    }
  }

  /** The last push of a series adds its script to what a socket received exactly when it reaches that socket. */
  lemma FanoutReceivedStep(s: seq<SocketId>, scripts: seq<string>, failures: Failures, ws: SocketId)
    requires Distinct(s) && scripts != []
    requires var k := |scripts| - 1;
             Received(Fanout(s, scripts[..k], failures), ws)
             == if ws in s then Envelopes(scripts[..k][..Reach(ws, failures, k)]) else []
    ensures Received(Fanout(s, scripts, failures), ws)
         == if ws in s then Envelopes(scripts[..Reach(ws, failures, |scripts|)]) else []
  {
    var k := |scripts| - 1;
    var env := ToEnvelope(Script(scripts[k]));
    var live := Survivors(s, failures, k);
    var earlier := Fanout(s, scripts[..k], failures);
    var last := Attempts(live, env, failures(k));
    assert Fanout(s, scripts, failures) == earlier + last;
    ReceivedAppend(earlier, last, ws);
    SurvivorsDistinct(s, failures, k);
    ReceivedAttempts(live, env, failures(k), ws);
    if ws in s {
      ReachedByLastPush(s, failures, k, ws);
      ReceivedPrefixStep(scripts, failures, ws);
    } else {
      SurvivorsMembers(s, failures, k, ws);
    }
  }

  /** Push `k` delivers to a listed socket exactly when all `k` earlier pushes did and push `k` does not fail on it. */
  lemma ReachedByLastPush(s: seq<SocketId>, failures: Failures, k: nat, ws: SocketId)
    requires ws in s
    ensures (ws in Survivors(s, failures, k) && ws !in failures(k)) <==> (Reach(ws, failures, k) == k && ws !in failures(k))
  {
    SurvivorsMembers(s, failures, k, ws);
    ReachIsFirstFailure(ws, failures, k);
  }

  /** The scripts reaching a socket grow by the last one exactly when the last push reaches it. */
  lemma ReceivedPrefixStep(scripts: seq<string>, failures: Failures, ws: SocketId)
    requires scripts != []
    ensures var k := |scripts| - 1;
            var r := Reach(ws, failures, k);
            Envelopes(scripts[..Reach(ws, failures, k + 1)])
            == Envelopes(scripts[..k][..r]) + (if r == k && ws !in failures(k) then [ToEnvelope(Script(scripts[k]))] else [])
  {
    var k := |scripts| - 1;
    var r := Reach(ws, failures, k);
    if r == k && ws !in failures(k) {
      assert scripts[..k + 1] == scripts;
      assert scripts[..k][..r] == scripts[..k];
      EnvelopesSnoc(scripts);
    } else {
      assert scripts[..r] == scripts[..k][..r];
    }
  }

  /** `await message_queue.broadcast_js_to_user(js, username)`, one step of a run. */
  method Push(q: AsyncQueue, username: Username, js: string, failures: Failures,
              ghost before: map<Username, seq<SocketId>>, sent0: seq<string>, log0: seq<Delivery>)
    returns (sent: seq<string>, log: seq<Delivery>)
    requires q.Valid()
    requires q.userWebsockets == PushedTable(before, username, failures, |sent0|)
    requires log0 == Fanout(SocketsOf(before, username), sent0, failures)
    modifies q
    ensures q.Valid() && q.order == old(q.order)
    ensures q.userWebsockets == PushedTable(before, username, failures, |sent|)
    ensures sent == sent0 + [js]
    ensures log == Fanout(SocketsOf(before, username), sent, failures)
  {
    PushedStep(before, username, failures, |sent0|);
    var more := q.BroadcastJsToUser(js, username, failures(|sent0|));
    sent := sent0 + [js];
    log := log0 + more;
    assert sent[..|sent0|] == sent0;
  }

  lemma ScriptsSnoc(tags: seq<Tag>, t: Tag, frag: string)
    ensures Scripts(tags + [t], frag) == Scripts(tags, frag) + [ScriptOf(t, frag)]
  {
  }

  /** One step of a handler: the broadcast of the script of message `t`; `frag` is the handler's fragment update. */
  method PushTag(q: AsyncQueue, user: Username, t: Tag, frag: string, failures: Failures,
                 ghost before: map<Username, seq<SocketId>>, tags0: seq<Tag>, log0: seq<Delivery>)
    returns (tags: seq<Tag>, log: seq<Delivery>)
    requires q.Valid()
    requires q.userWebsockets == PushedTable(before, user, failures, |tags0|)
    requires log0 == Fanout(SocketsOf(before, user), Scripts(tags0, frag), failures)
    modifies q
    ensures q.Valid() && q.order == old(q.order)
    ensures q.userWebsockets == PushedTable(before, user, failures, |tags|)
    ensures tags == tags0 + [t]
    ensures log == Fanout(SocketsOf(before, user), Scripts(tags, frag), failures)
  {
    var sent;
    sent, log := Push(q, user, ScriptOf(t, frag), failures, before, Scripts(tags0, frag), log0);
    tags := tags0 + [t];
    ScriptsSnoc(tags0, t, frag);
  }

  lemma SnocTwo(x: seq<Tag>, a: Tag, b: Tag)
    ensures x + [a] + [b] == x + [a, b]
  {
  }

  lemma SnocThree(x: seq<Tag>, a: Tag, b: Tag, c: Tag)
    ensures x + [a] + [b] + [c] == x + [a, b, c]
  {
  }

  lemma SnocFour(x: seq<Tag>, a: Tag, b: Tag, c: Tag, d: Tag)
    ensures x + [a] + [b] + [c] + [d] == x + [a, b, c, d]
  {
  }

  /** The pushes after the course operation in `update_item`: hide, then the toast. */
  method FinishUpdateItem(q: AsyncQueue, user: Username, success: bool, frag: string, failures: Failures,
                          ghost before: map<Username, seq<SocketId>>, tags0: seq<Tag>, log0: seq<Delivery>)
    returns (tags: seq<Tag>, log: seq<Delivery>)
    requires q.Valid()
    requires q.userWebsockets == PushedTable(before, user, failures, |tags0|)
    requires log0 == Fanout(SocketsOf(before, user), Scripts(tags0, frag), failures)
    modifies q
    ensures q.Valid() && q.order == old(q.order)
    ensures q.userWebsockets == PushedTable(before, user, failures, |tags|)
    ensures tags == tags0 + [HideLoading, if success then SuccessToast else ErrorToast]
    ensures log == Fanout(SocketsOf(before, user), Scripts(tags, frag), failures)
  {
    tags, log := PushTag(q, user, HideLoading, frag, failures, before, tags0, log0);
    tags, log := PushTag(q, user, if success then SuccessToast else ErrorToast, frag, failures, before, tags, log);
    SnocTwo(tags0, HideLoading, if success then SuccessToast else ErrorToast);
  }

  /** The pushes after the course operation in `delete_module`: hide before the fragment. */
  method FinishDeleteModule(q: AsyncQueue, user: Username, success: bool, frag: string, failures: Failures,
                            ghost before: map<Username, seq<SocketId>>, tags0: seq<Tag>, log0: seq<Delivery>)
    returns (tags: seq<Tag>, log: seq<Delivery>)
    requires q.Valid()
    requires q.userWebsockets == PushedTable(before, user, failures, |tags0|)
    requires log0 == Fanout(SocketsOf(before, user), Scripts(tags0, frag), failures)
    modifies q
    ensures q.Valid() && q.order == old(q.order)
    ensures q.userWebsockets == PushedTable(before, user, failures, |tags|)
    ensures tags == tags0 + (if success then [HideLoading, Fragment, SuccessToast, CloseModal] else [HideLoading, ErrorToast, CloseModal])
    ensures log == Fanout(SocketsOf(before, user), Scripts(tags, frag), failures)
  {
    tags, log := PushTag(q, user, HideLoading, frag, failures, before, tags0, log0);
    if success {
      tags, log := PushTag(q, user, Fragment, frag, failures, before, tags, log);
      tags, log := PushTag(q, user, SuccessToast, frag, failures, before, tags, log);
      tags, log := PushTag(q, user, CloseModal, frag, failures, before, tags, log);
      SnocFour(tags0, HideLoading, Fragment, SuccessToast, CloseModal);
    } else {
      tags, log := PushTag(q, user, ErrorToast, frag, failures, before, tags, log);
      tags, log := PushTag(q, user, CloseModal, frag, failures, before, tags, log);
      SnocThree(tags0, HideLoading, ErrorToast, CloseModal);
    }
  }

  /** The pushes after the course operation in every other handler: the fragment before the hide. */
  method FinishOther(q: AsyncQueue, user: Username, success: bool, frag: string, failures: Failures,
                     ghost before: map<Username, seq<SocketId>>, tags0: seq<Tag>, log0: seq<Delivery>)
    returns (tags: seq<Tag>, log: seq<Delivery>)
    requires q.Valid()
    requires q.userWebsockets == PushedTable(before, user, failures, |tags0|)
    requires log0 == Fanout(SocketsOf(before, user), Scripts(tags0, frag), failures)
    modifies q
    ensures q.Valid() && q.order == old(q.order)
    ensures q.userWebsockets == PushedTable(before, user, failures, |tags|)
    ensures tags == tags0 + (if success then [Fragment, HideLoading, SuccessToast, CloseModal] else [HideLoading, ErrorToast, CloseModal])
    ensures log == Fanout(SocketsOf(before, user), Scripts(tags, frag), failures)
  {
    if success {
      tags, log := PushTag(q, user, Fragment, frag, failures, before, tags0, log0);
      tags, log := PushTag(q, user, HideLoading, frag, failures, before, tags, log);
      tags, log := PushTag(q, user, SuccessToast, frag, failures, before, tags, log);
      tags, log := PushTag(q, user, CloseModal, frag, failures, before, tags, log);
      SnocFour(tags0, Fragment, HideLoading, SuccessToast, CloseModal);
    } else {
      tags, log := PushTag(q, user, HideLoading, frag, failures, before, tags0, log0);
      tags, log := PushTag(q, user, ErrorToast, frag, failures, before, tags, log);
      tags, log := PushTag(q, user, CloseModal, frag, failures, before, tags, log);
      SnocThree(tags0, HideLoading, ErrorToast, CloseModal);
    }
  }

  /** Each entry of the push table is show-loading followed by what the `Finish` step of its handler pushes. */
  lemma PushSequenceAfterShow(h: Handler, success: bool)
    ensures PushSequence(h, success) == [ShowLoading] +
      if h == UpdateItem then [HideLoading, if success then SuccessToast else ErrorToast]
      else if h == DeleteModule then
        if success then [HideLoading, Fragment, SuccessToast, CloseModal] else [HideLoading, ErrorToast, CloseModal]
      else if success || NeverBranches(h) then [Fragment, HideLoading, SuccessToast, CloseModal]
      else [HideLoading, ErrorToast, CloseModal]
  {
  }

  /** Everything a handler pushes after show-loading, once its course operation has returned `success`. */
  method Finish(q: AsyncQueue, user: Username, h: Handler, success: bool, frag: string, failures: Failures,
                ghost before: map<Username, seq<SocketId>>, log0: seq<Delivery>)
    returns (tags: seq<Tag>, log: seq<Delivery>)
    requires q.Valid()
    requires q.userWebsockets == PushedTable(before, user, failures, 1)
    requires log0 == Fanout(SocketsOf(before, user), Scripts([ShowLoading], frag), failures)
    modifies q
    ensures q.Valid() && q.order == old(q.order)
    ensures q.userWebsockets == PushedTable(before, user, failures, |tags|)
    ensures tags == PushSequence(h, success)
    ensures log == Fanout(SocketsOf(before, user), Scripts(tags, frag), failures)
  {
    PushSequenceAfterShow(h, success);
    if h == UpdateItem {
      tags, log := FinishUpdateItem(q, user, success, frag, failures, before, [ShowLoading], log0);
    } else if h == DeleteModule {
      tags, log := FinishDeleteModule(q, user, success, frag, failures, before, [ShowLoading], log0);
    } else {
      tags, log := FinishOther(q, user, success || NeverBranches(h), frag, failures, before, [ShowLoading], log0);
    }
  }

  /**
   * One run of an action handler for the session's user: the login check,
   * then show-loading, the course operation, the fragment on the success
   * path, hide-loading, a toast and close-modal, in the handler's order.
   * `failures(k)` are the sockets whose send fails during the run's `k`-th
   * push; the renderers stand for the page templates; `toInt` and
   * `toPoints` for Python's number parsing.
   */
  method Handle(q: AsyncQueue, session: Auth.Session, a: Action, env: Courses.Env,
                renderCourses: seq<Courses.ListedCourse> -> string,
                renderItems: (seq<Courses.Item>, string, string, seq<string>) -> string,
                toInt: string -> Option<int>, toPoints: string -> Option<int>, failures: Failures)
    returns (response: Response, scripts: seq<string>, log: seq<Delivery>, commands: seq<seq<string>>)
    requires q.Valid()
    modifies q
    ensures q.Valid() && q.order == old(q.order)
    ensures !Auth.LoggedIn(session) ==>
      response == Redirect("/login", 303) && scripts == [] && log == [] && commands == []
      && q.userWebsockets == old(q.userWebsockets)
    ensures Auth.LoggedIn(session) ==>
      var m := Mutation(env, a, toInt, toPoints);
      var tags := Observed(KindOf(a), m.value);
      var frag := Render(env, a, renderCourses, renderItems);
      && scripts == Scripts(tags, frag.value)
      && commands == m.commands + (if Fragment in tags then frag.commands else [])
      && response == ResponseOf(a, m.value)
      && q.userWebsockets == PushedTable(old(q.userWebsockets), session.value, failures, |scripts|)
      && log == Fanout(SocketsOf(old(q.userWebsockets), session.value), scripts, failures)
  {
    var gate := Auth.RequireLogin(session);
    if gate.Redirect? {
      return Redirect(gate.url, gate.status), [], [], [];
    }
    response, scripts, log, commands := Act(q, gate.username, a, env, renderCourses, renderItems, toInt, toPoints, failures);
  }

  /** The part of a handler run after the login check, for the logged-in `user`. */
  method Act(q: AsyncQueue, user: Username, a: Action, env: Courses.Env,
             renderCourses: seq<Courses.ListedCourse> -> string,
             renderItems: (seq<Courses.Item>, string, string, seq<string>) -> string,
             toInt: string -> Option<int>, toPoints: string -> Option<int>, failures: Failures)
    returns (response: Response, scripts: seq<string>, log: seq<Delivery>, commands: seq<seq<string>>)
    requires q.Valid()
    modifies q
    ensures q.Valid() && q.order == old(q.order)
    ensures var m := Mutation(env, a, toInt, toPoints);
      var tags := Observed(KindOf(a), m.value);
      var frag := Render(env, a, renderCourses, renderItems);
      && scripts == Scripts(tags, frag.value)
      && commands == m.commands + (if Fragment in tags then frag.commands else [])
      && response == ResponseOf(a, m.value)
      && q.userWebsockets == PushedTable(old(q.userWebsockets), user, failures, |scripts|)
      && log == Fanout(SocketsOf(old(q.userWebsockets), user), scripts, failures)
  {
    ghost var before := q.userWebsockets;
    PushedStep(before, user, failures, 0);
    var frag := Render(env, a, renderCourses, renderItems);
    var tags;
    tags, log := PushTag(q, user, ShowLoading, frag.value, failures, before, [], []);
    var m := Mutation(env, a, toInt, toPoints);
    commands := m.commands;
    if m.value.Raised? {
      assert tags == Observed(KindOf(a), m.value) && Fragment !in tags;
      return ServerError, Scripts(tags, frag.value), log, commands;
    }
    tags, log := Finish(q, user, KindOf(a), m.value.success, frag.value, failures, before, log);
    assert tags == Observed(KindOf(a), m.value);
    if Fragment in tags {
      commands := commands + frag.commands;
    }
    scripts := Scripts(tags, frag.value);
    response := ResponseOf(a, m.value);
  }

  /**
   * What the user sees of one handler run, on each of the user's sockets
   * (which are distinct): the handler's push series, in order, up to the
   * first push whose send fails on that socket, and the message kinds can
   * be read back from what arrived; a socket no push fails on receives the
   * whole series.
   */
  lemma UserSeesPushSequence(sockets: seq<SocketId>, tags: seq<Tag>, frag: string, failures: Failures, ws: SocketId)
    requires Distinct(sockets) && IsFragmentJs(frag) && ws in sockets
    ensures var n := Reach(ws, failures, |tags|);
      && Received(Fanout(sockets, Scripts(tags, frag), failures), ws) == Envelopes(Scripts(tags[..n], frag))
      && TagsOf(Scripts(tags[..n], frag)) == tags[..n]
    ensures (forall j :: 0 <= j < |tags| ==> ws !in failures(j)) ==>
      Received(Fanout(sockets, Scripts(tags, frag), failures), ws) == Envelopes(Scripts(tags, frag))
  {
    var n := Reach(ws, failures, |tags|);
    FanoutReceived(sockets, Scripts(tags, frag), failures, ws);
    assert Scripts(tags, frag)[..n] == Scripts(tags[..n], frag);
    ScriptsDecode(tags[..n], frag);
    ReachIsFirstFailure(ws, failures, |tags|);
    if n == |tags| {
      assert tags[..n] == tags;
    }
  }

  // ----- the websocket endpoint -----

  /** The `run-js` frames of a connection, each answered with one push. */
  function RunJsReplies(events: seq<Option<string>>): seq<string> {
    if events == [] then []
    else RunJsReplies(events[..|events| - 1]) + (if events[|events| - 1] == Some("run-js") then [ConsoleJs] else [])
  }

  /** Only `run-js` frames are answered, one push each, always the same script. */
  lemma {:induction false} RunJsRepliesShape(events: seq<Option<string>>)
    ensures |RunJsReplies(events)| == multiset(events)[Some("run-js")]
    ensures forall i :: 0 <= i < |RunJsReplies(events)| ==> RunJsReplies(events)[i] == ConsoleJs
  {
    if events != [] {
      var init := events[..|events| - 1];
      RunJsRepliesShape(init);
      assert events == init + [events[|events| - 1]];
    }
  }

  /**
   * `websocket_endpoint`: registers the socket, answers every `run-js` frame
   * with one execute-js push to the user, and unregisters the socket when
   * the connection ends. `events` are the `event` fields of the frames
   * received before the connection closed; `failures(k)` are the sockets
   * whose send fails during the `k`-th reply.
   */
  method WebsocketSession(q: AsyncQueue, ws: SocketId, username: Username, events: seq<Option<string>>, failures: Failures)
    returns (scripts: seq<string>, log: seq<Delivery>)
    requires q.Valid()
    modifies q
    ensures q.Valid()
    ensures scripts == RunJsReplies(events)
    ensures var added := Added(old(q.userWebsockets), username, ws);
      var pushed := PushedTable(added, username, failures, |scripts|);
      && log == Fanout(SocketsOf(added, username), scripts, failures)
      && q.userWebsockets == Removed(pushed, username, ws)
      && q.order == OrderAfterRemove(OrderAfterAdd(old(q.order), old(q.userWebsockets), username), pushed, username, ws)
  {
    q.AddWebsocket(ws, username);
    ghost var added := q.userWebsockets;
    ghost var order := q.order;
    PushedStep(added, username, failures, 0);
    scripts, log := [], [];
    var i := 0;
    while i < |events|
      invariant 0 <= i <= |events|
      invariant q.Valid() && q.order == order
      invariant scripts == RunJsReplies(events[..i])
      invariant q.userWebsockets == PushedTable(added, username, failures, |scripts|)
      invariant log == Fanout(SocketsOf(added, username), scripts, failures)
    {
      assert events[..i + 1][..i] == events[..i];
      if events[i] == Some("run-js") {
        scripts, log := Push(q, username, ConsoleJs, failures, added, scripts, log);
      }
      i := i + 1;
    }
    assert events[..i] == events;
    q.RemoveWebsocket(ws, username);
  }

  // ----- view_item -----

  const TemplateMap: map<string, string> := map[
    "WikiPage" := "view-item/view-WikiPage.html",
    "Assignment" := "view-item/view-Assignment.html",
    "DiscussionTopic" := "view-item/view-DiscussionTopic.html",
    "File" := "view-item/view-File.html",
    "Quiz" := "view-item/view-Quiz.html"]

  const DefaultTemplate: string := "view-item/view-item.html"

  /** `template_map.get(content_type, "view-item/view-item.html")`. */
  function TemplateFor(contentType: string): string {
    if contentType in TemplateMap then TemplateMap[contentType] else DefaultTemplate
  }

  /** Each supported content type has its own page, named after it; any other gets the generic page. */
  lemma TemplateNames(contentType: string)
    ensures TemplateFor(contentType) ==
      if contentType in Courses.ContentTypes then "view-item/view-" + contentType + ".html" else DefaultTemplate
  {
    if contentType in Courses.ContentTypes {
      TemplateNamed(contentType);
    } else {
      assert contentType !in TemplateMap;
    }
  }

  lemma TemplateNamed(contentType: string)
    requires contentType in Courses.ContentTypes
    ensures TemplateMap[contentType] == "view-item/view-" + contentType + ".html"
  {
    if contentType == "WikiPage" {
      WikiPageTemplate();
    } else if contentType == "Assignment" {
      AssignmentTemplate();
    } else if contentType == "DiscussionTopic" {
      DiscussionTopicTemplate();
    } else if contentType == "File" {
      FileTemplate();
    } else {
      QuizTemplate();
    }
  }

  lemma WikiPageTemplate()
    ensures TemplateMap["WikiPage"] == "view-item/view-" + "WikiPage" + ".html"
  {
  }

  lemma AssignmentTemplate()
    ensures TemplateMap["Assignment"] == "view-item/view-" + "Assignment" + ".html"
  {
  }

  lemma DiscussionTopicTemplate()
    ensures TemplateMap["DiscussionTopic"] == "view-item/view-" + "DiscussionTopic" + ".html"
  {
  }

  lemma FileTemplate()
    ensures TemplateMap["File"] == "view-item/view-" + "File" + ".html"
  {
  }

  lemma QuizTemplate()
    ensures TemplateMap["Quiz"] == "view-item/view-" + "Quiz" + ".html"
  {
  }

  /** `view_item`: the login check, then the item page, or back to the module page when no details come back. */
  function ViewItem(session: Auth.Session, env: Courses.Env, courseName: string, moduleName: string,
                    itemTitle: string, contentType: string): (r: Courses.Traced<Response>)
  {
    if !Auth.LoggedIn(session) then Courses.Traced(Redirect("/login", 303), [])
    else
      var item := Courses.ItemDetails(env, courseName, moduleName, itemTitle, contentType);
      if item.value == map[] then Courses.Traced(Redirect(ModulePage(courseName, moduleName), 303), item.commands)
      else Courses.Traced(Page(TemplateFor(contentType), item.value), item.commands)
  }

  /**
   * A page is shown exactly when the user is logged in and details came
   * back; the page's template follows the content type, and the item it
   * shows carries a supported content type.
   */
  lemma ViewItemPage(session: Auth.Session, env: Courses.Env, courseName: string, moduleName: string,
                     itemTitle: string, contentType: string)
    ensures var r := ViewItem(session, env, courseName, moduleName, itemTitle, contentType).value;
      && (r.Page? <==> Auth.LoggedIn(session) && Courses.ItemDetails(env, courseName, moduleName, itemTitle, contentType).value != map[])
      && (r.Page? ==> r.template == TemplateFor(contentType) && r.item["content_type"] in Courses.ContentTypes)
      && (r.Page? && contentType != "" ==> r.item["content_type"] == contentType && r.template != DefaultTemplate)
      && (!r.Page? ==> r == Redirect("/login", 303) || r == Redirect(ModulePage(courseName, moduleName), 303))
  {
  }
}
