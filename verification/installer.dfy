/** The decision helpers of the installer window: URL validation messages,
    the warning label, starting a pack download, and the default selection
    of the version combo boxes. The URL validator is a parameter. */
module Installer {
  import opened Base
  import Seqs
  import Retriever
  import Loaders

  /** The schemes the URL validator accepts. */
  const ValidUrlSchemes: seq<string> := ["http", "https", "file", "github"]

  datatype Label = Label(text: string, visible: bool)

  /** The parts of the window these helpers change: whether the form is
      enabled, the warning label, and the loading bar. */
  datatype Form = Form(valid: bool, warning: Label, loading: bool)

  /** `setError(error)`: the label shows exactly when the error is a
      non-empty string, and its text is replaced only then. */
  function SetError(l: Label, error: Option<string>): (r: Label)
    ensures r.visible <==> error.Some? && error.value != ""
    ensures r.visible ==> r.text == error.value
    ensures !r.visible ==> r.text == l.text
  {
    var show := error.Some? && error.value != "";
    Label(if show then error.value else l.text, show)
  }

  /** `setLoading(loading)`: the bar follows the flag; starting to load hides
      the warning. */
  function SetLoading(f: Form, loading: bool): (r: Form)
    ensures r.loading == loading && r.valid == f.valid && r.warning.text == f.warning.text
    ensures r.warning.visible <==> f.warning.visible && !loading
  {
    Form(f.valid, if loading then f.warning.(visible := false) else f.warning, loading)
  }

  /** `validate()`: the form is disabled first in every case; then an empty
      field, a field the validator rejects, or neither decides the message. */
  function Validate(f: Form, text: string, isValidUrl: string -> bool): (r: Form)
    ensures !r.valid && r.loading == f.loading
    ensures text == "" ==> r.warning == Label("Pack URL is required", true)
    ensures text != "" && !isValidUrl(text) ==> r.warning == Label("Invalid Pack URL", true)
    ensures text != "" && isValidUrl(text) ==> r.warning == f.warning.(visible := false)
  {
    var f' := f.(valid := false);
    if text == "" then f'.(warning := SetError(f'.warning, Some("Pack URL is required")))
    else if !isValidUrl(text) then f'.(warning := SetError(f'.warning, Some("Invalid Pack URL")))
    else f'.(warning := SetError(f'.warning, None))
  }

  /** The window and retriever after `downloadPackFile`, and the exception
      that escaped it, if any. */
  datatype Downloaded = Downloaded(form: Form, retriever: Retriever.Retriever, thrown: Option<string>)

  /** `downloadPackFile(url)`: a URL the validator rejects only sets an error;
      one that `new URI` cannot parse is ignored; otherwise the retriever is
      updated and the loading bar shown when that update starts a fetch. An
      exception from `update` is not caught. The debouncer's timer calls it
      off the UI thread, a paste on it. */
  function DownloadPackFile(f: Form, m: Retriever.Retriever, url: string, isValidUrl: string -> bool,
                            parseUri: string -> Option<Retriever.Uri>, onUiThread: bool): (r: Downloaded)
    requires Retriever.Valid(m)
    ensures Retriever.Valid(r.retriever)
    ensures !isValidUrl(url) ==>
      r == Downloaded(f.(warning := Label("Invalid pack file URL", true)), m, None)
    ensures isValidUrl(url) && parseUri(url).None? ==> r == Downloaded(f, m, None)
    ensures isValidUrl(url) && parseUri(url).Some? ==>
      var (outcome, m') := Retriever.Update(m, parseUri(url).value, onUiThread);
      && r.retriever == m'
      && (outcome == Ok(true) ==> r.form == SetLoading(f, true) && r.thrown.None?)
      && (outcome == Ok(false) ==> r.form == f && m' == m && r.thrown.None?)
      && (outcome.Err? ==> r.form == f && r.thrown == Some(outcome.message))
  {
    if !isValidUrl(url) then Downloaded(f.(warning := SetError(f.warning, Some("Invalid pack file URL"))), m, None)
    else match parseUri(url)
      case None => Downloaded(f, m, None)
      case Some(uri) =>
        match Retriever.Update(m, uri, onUiThread)
        case (Ok(started), m') => Downloaded(if started then SetLoading(f, true) else f, m', None)
        case (Err(e), m') => Downloaded(f, m', Some(e))
  }

  /** The field check and the download agree: when `validate()` hides the
      warning the download leaves its text alone and shows the loading bar
      whenever it starts a task; when `validate()` warns about a non-empty
      field the download refuses it too and leaves the retriever alone. */
  lemma ValidateThenDownload(f: Form, m: Retriever.Retriever, url: string, isValidUrl: string -> bool,
                             parseUri: string -> Option<Retriever.Uri>, onUiThread: bool)
    requires Retriever.Valid(m) && url != ""
    ensures var v := Validate(f, url, isValidUrl);
      var d := DownloadPackFile(v, m, url, isValidUrl, parseUri, onUiThread);
      && (!v.warning.visible ==> d.form.warning.text == f.warning.text && (d.retriever.task != m.task ==> d.form.loading))
      && (v.warning.visible ==> d.retriever == m && d.form.warning == Label("Invalid pack file URL", true))
  {
  }

  /** A paste while a fetch is running: the download throws out of the paste
      handler, no task starts, the loading bar stays as it was, and
      downloading the same URL again, by paste or by timer, changes nothing. */
  lemma PasteWhileFetching(f: Form, m: Retriever.Retriever, url: string, isValidUrl: string -> bool,
                           parseUri: string -> Option<Retriever.Uri>, again: bool)
    requires Retriever.Valid(m) && Retriever.Busy(m)
    requires isValidUrl(url) && parseUri(url).Some? && m.packUri != parseUri(url)
    ensures var d := DownloadPackFile(f, m, url, isValidUrl, parseUri, true);
      && d.thrown == Some("CancellationException") && d.form == f
      && (forall i :: 0 <= i < |d.retriever.workers| ==> !d.retriever.workers[i].status.Running?)
      && DownloadPackFile(d.form, d.retriever, url, isValidUrl, parseUri, again) == Downloaded(f, d.retriever, None)
  {
  }

  datatype Selection = SelectIndex(index: nat) | Disable | Unchanged

  /** Whether the pack pins `key` to a version the fetched list offers. */
  predicate Pins(pack: Option<Retriever.Data>, key: string, versions: seq<string>) {
    pack.Some? && key in pack.value.versions && pack.value.versions[key] in versions
  }

  /** The three-way default shared by both combo boxes: the first index of
      the pinned version when `pinned` holds, else the first entry, else the
      box is disabled. */
  function DefaultSelection(versions: seq<string>, pinned: bool, target: string): (s: Selection)
    requires pinned ==> target in versions
    ensures s.Disable? <==> versions == []
    ensures !s.Unchanged?
    ensures s.SelectIndex? ==> s.index < |versions|
    ensures pinned ==> s.SelectIndex? && versions[s.index] == target
    ensures pinned ==> forall j :: 0 <= j < s.index ==> versions[j] != target
    ensures !pinned && versions != [] ==> s == SelectIndex(0)
  {
    if pinned then SelectIndex(Seqs.IndexOf(versions, target))
    else if |versions| > 0 then SelectIndex(0)
    else Disable
  }

  /** `loadMCVersions` `done()`: the loading bar is hidden first; after a
      failed load the box is left empty and disabled and the warning names the
      loader; the pack's Minecraft version is preselected only when the pack
      also names this getter's loader. */
  function MinecraftVersionsDone(f: Form, result: Result<seq<string>>, pack: Option<Retriever.Data>, loaderName: string)
    : (r: (Form, Selection))
    ensures !r.0.loading && r.0.valid == f.valid
    ensures result.Err? ==>
      r == (SetLoading(f, false).(warning := Label("Error while loading " + loaderName + " MC versions: " + result.message, true)),
            Disable)
    ensures result.Ok? ==> r.0.warning == f.warning
    ensures result.Ok? && Pins(pack, "minecraft", result.value) && loaderName in pack.value.versions ==>
      r.1.SelectIndex? && r.1.index == Seqs.IndexOf(result.value, pack.value.versions["minecraft"])
    ensures result.Ok? && !(Pins(pack, "minecraft", result.value) && loaderName in pack.value.versions) ==>
      r.1 == (if result.value == [] then Disable else SelectIndex(0))
  {
    var f' := SetLoading(f, false);
    match result
    case Err(m) => (f'.(warning := SetError(f'.warning, Some("Error while loading " + loaderName + " MC versions: " + m))), Disable)
    case Ok(versions) =>
      var pinned := Pins(pack, "minecraft", versions) && loaderName in pack.value.versions;
      (f', DefaultSelection(versions, pinned, if pinned then pack.value.versions["minecraft"] else ""))
  }

  /** `loadLoaderVersions` `done()`: the loading bar is hidden first, and
      then a cancelled load changes nothing more; a failed one leaves the box
      empty and disabled with a warning naming the loader; otherwise the
      pack's version for this loader is preselected when offered. */
  function LoaderVersionsDone(f: Form, result: Result<seq<string>>, cancelled: bool,
                              pack: Option<Retriever.Data>, loaderName: string)
    : (r: (Form, Selection))
    ensures !r.0.loading && r.0.valid == f.valid
    ensures cancelled ==> r == (SetLoading(f, false), Unchanged)
    ensures !cancelled && result.Err? ==>
      r == (SetLoading(f, false).(warning := Label("Error while loading " + loaderName + " versions: " + result.message, true)),
            Disable)
    ensures !cancelled && result.Ok? ==> r.0.warning == f.warning
    ensures !cancelled && result.Ok? && Pins(pack, loaderName, result.value) ==>
      r.1.SelectIndex? && r.1.index == Seqs.IndexOf(result.value, pack.value.versions[loaderName])
    ensures !cancelled && result.Ok? && !Pins(pack, loaderName, result.value) ==>
      r.1 == (if result.value == [] then Disable else SelectIndex(0))
  {
    var f' := SetLoading(f, false);
    if cancelled then (f', Unchanged)
    else match result
      case Err(m) => (f'.(warning := SetError(f'.warning, Some("Error while loading " + loaderName + " versions: " + m))), Disable)
      case Ok(versions) =>
        var pinned := Pins(pack, loaderName, versions);
        (f', DefaultSelection(versions, pinned, if pinned then pack.value.versions[loaderName] else ""))
  }

  /** Of the schemes the validator lets through, only `github` has no
      branch in the retriever's scheme switch: such a pack URL passes
      validation and then fails in the background. */
  lemma GithubPassesValidationButCannotBeFetched()
    ensures forall s :: s in ValidUrlSchemes ==> (Retriever.ChannelFor(Some(s)).Err? <==> s == "github")
    ensures Retriever.ChannelFor(Some("github")) == Err("Invalid URL scheme supplied: github")
  {
  }

  /** Because the Quilt getter reports the name "fabric", a Quilt pack
      (naming "quilt" and not "fabric") never gets its Minecraft version
      preselected: the first entry is chosen instead. */
  lemma QuiltPackNotPreselected(f: Form, versions: seq<string>, pack: Retriever.Data)
    requires "quilt" in pack.versions && "fabric" !in pack.versions && versions != []
    ensures MinecraftVersionsDone(f, Ok(versions), Some(pack), Loaders.LoaderName(Loaders.New(Loaders.QuiltKind))).1
      == SelectIndex(0)
  {
  }
}
