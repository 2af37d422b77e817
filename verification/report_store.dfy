/** The reports directory of `ResearchReportGenerator`: saving a rendered
    report under its chosen file name and the `delete_report` decision, over
    an abstract directory listing. */
module ReportStore {
  import opened Wrappers
  import opened Text
  import opened FileNames
  import opened ReportMarkdown
  import opened ReportLayout

  /** What a name in the reports directory refers to. */
  datatype Entry = File(text: string) | Folder

  /** The reports directory: its absolute path and its entries by name. */
  datatype Store = Store(root: string, entries: map<string, Entry>)

  datatype SaveError =
    | RenderFailed(cause: RenderError)
    | IsADirectory(name: string)

  /** The absolute path `save_report_to_file` returns for a file name. */
  function PathOf(store: Store, name: string): string {
    store.root + "/" + name
  }

  /** Writing `text` to `name`: opening a folder for writing fails, anything
      else creates or overwrites the file. */
  function Write(store: Store, name: string, text: string): (res: Result<Store, SaveError>)
    ensures res.Failure? <==> name in store.entries && store.entries[name].Folder?
    ensures res.Success? ==>
      && res.value.root == store.root
      && res.value.entries.Keys == store.entries.Keys + {name}
      && res.value.entries[name] == File(text)
      && forall n :: n in store.entries && n != name ==> res.value.entries[n] == store.entries[n]
  {
    if name in store.entries && store.entries[name].Folder? then Failure(IsADirectory(name))
    else Success(store.(entries := store.entries[name := File(text)]))
  }

  /** `save_report_to_file` with the report's lines initialised: choose the
      file name, render the report, write it, and return the new directory
      with the file's absolute path.  `now` is the rendering time. */
  function SaveReport(store: Store, report: ResearchReport, custom: Option<string>, now: string)
    : (res: Result<(Store, string), SaveError>)
    ensures var name := ChooseFilename(report.topic, report.createdAt.compact, custom);
      && (res.Failure? <==> name in store.entries && store.entries[name].Folder?)
      && (res.Success? ==>
           && res.value.1 == PathOf(store, name)
           && name in res.value.0.entries
           && res.value.0.entries[name] == File(BuildMarkdown(report, now))
           && res.value.0.root == store.root
           && res.value.0.entries.Keys == store.entries.Keys + {name}
           && forall n :: n in store.entries && n != name ==> res.value.0.entries[n] == store.entries[n])
  {
    var name := ChooseFilename(report.topic, report.createdAt.compact, custom);
    match Write(store, name, BuildMarkdown(report, now))
    case Success(s) => Success((s, PathOf(store, name)))
    case Failure(e) => Failure(e)
  }

  /** `save_report_to_file` as the source has it: rendering raises before
      anything is written, and the exception is re-raised. */
  function SaveReportAsWritten(store: Store, report: ResearchReport, custom: Option<string>, now: string)
    : Result<(Store, string), SaveError>
  {
    var name := ChooseFilename(report.topic, report.createdAt.compact, custom);
    match BuildMarkdownAsWritten(report, now)
    case Failure(e) => Failure(RenderFailed(e))
    case Success(text) =>
      match Write(store, name, text)
      case Success(s) => Success((s, PathOf(store, name)))
      case Failure(e) => Failure(e)
  }

  /** As written, saving never succeeds and so never writes a file. */
  lemma SaveAsWrittenFails(store: Store, report: ResearchReport, custom: Option<string>, now: string)
    ensures SaveReportAsWritten(store, report, custom, now) == Failure(RenderFailed(NameError("content")))
  {
    AsWrittenAlwaysFails(report, now);
  }

  /** `delete_report`: the entry is removed and `true` returned exactly when
      the name exists, the suffix of its path's last component is `.md`, and
      it is a file (unlinking a folder raises, which is caught and reported
      as `false`).  Otherwise the directory is left as it was. */
  function DeleteReport(store: Store, filename: string): (res: (bool, Store))
    ensures res.1.root == store.root
    ensures res.0 <==> filename in store.entries && HasReportSuffix(store.root, filename)
                       && store.entries[filename].File?
    ensures res.0 ==> res.1.entries == store.entries - {filename}
    ensures !res.0 ==> res.1 == store
  {
    if filename in store.entries && HasReportSuffix(store.root, filename) then
      match store.entries[filename]
      case File(_) => (true, store.(entries := store.entries - {filename}))
      case Folder => (false, store)
    else (false, store)
  }

  /** A file name the save step chooses passes the delete suffix test
      exactly when its last path component is not `.md` itself, which
      `PurePath.suffix` sees as having no suffix at all (the custom names
      `.md`, `x/.md` and `x/`, which becomes `x/.md`). */
  lemma ChosenNameDeletable(root: string, topic: string, stamp: string, custom: Option<string>)
    ensures var name := ChooseFilename(topic, stamp, custom);
      HasReportSuffix(root, name) <==> LastPart(name) != ReportExtension
  {
    ReportPathSuffixIff(root, ChooseFilename(topic, stamp, custom));
  }

  /** Deleting a freshly saved report returns `true` and leaves the
      directory with exactly the entries it had before, other than that
      name. */
  lemma SaveThenDelete(store: Store, report: ResearchReport, custom: Option<string>, now: string, name: string)
    requires name == ChooseFilename(report.topic, report.createdAt.compact, custom)
    requires LastPart(name) != ReportExtension
    requires name !in store.entries || store.entries[name].File?
    ensures SaveReport(store, report, custom, now).Success?
    ensures var (deleted, after) := DeleteReport(SaveReport(store, report, custom, now).value.0, name);
      && deleted
      && after.root == store.root
      && after.entries == store.entries - {name}
  {
    ChosenNameDeletable(store.root, report.topic, report.createdAt.compact, custom);
    var saved := SaveReport(store, report, custom, now).value.0;
    RemoveAdded(store.entries, saved.entries, name);
  }

  /** Removing a name that was just added leaves the other entries as they were. */
  lemma RemoveAdded(before: map<string, Entry>, after: map<string, Entry>, name: string)
    requires after.Keys == before.Keys + {name}
    requires forall n :: n in before && n != name ==> after[n] == before[n]
    ensures after - {name} == before - {name}
  {
  }

  /** A saved report whose text holds no newlines reads back line by line. */
  lemma SavedFileLines(store: Store, report: ResearchReport, custom: Option<string>, now: string)
    requires SingleLineText(report, now)
    requires SaveReport(store, report, custom, now).Success?
    ensures var (saved, _) := SaveReport(store, report, custom, now).value;
      var name := ChooseFilename(report.topic, report.createdAt.compact, custom);
      && name in saved.entries && saved.entries[name].File?
      && SplitOn('\n', saved.entries[name].text) == ReportLines(report, now)
  {
    MarkdownSplitsIntoLines(report, now);
  }

  /** The custom name `.md` is saved but cannot be deleted by name. */
  lemma DotMdNotDeletable(store: Store, report: ResearchReport, now: string)
    requires SaveReport(store, report, Some(ReportExtension), now).Success?
    ensures var (saved, _) := SaveReport(store, report, Some(ReportExtension), now).value;
      && ReportExtension in saved.entries
      && DeleteReport(saved, ReportExtension) == (false, saved)
  {
    ChosenNameDeletable(store.root, report.topic, report.createdAt.compact, Some(ReportExtension));
  }

  /** `x/.md` ends in `.md`, but its last component is `.md`, which has no
      suffix, so `delete_report("x/.md")` refuses it even when it exists. */
  lemma NestedDotMdRefused(store: Store)
    ensures !DeleteReport(store, "x/.md").0
  {
    var f := "x/.md";
    assert RFind(f, '/') == 1 by {
      assert f[1] == '/';
      assert f[2] != '/' && f[3] != '/' && f[4] != '/';
    }
    assert f[2..] == ReportExtension;
    LastPartTail(f);
    ReportPathSuffixIff(store.root, f);
  }
}
