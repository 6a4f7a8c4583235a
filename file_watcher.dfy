/** `ConfigFileWatcher`: calls back once per batch of file-system events that
    touches the configuration file in the project root. The project's base path is
    an input of `After`; the callback is a counter of its invocations. */
module FileWatcher {
  import opened Common

  /** The kinds of `VFileEvent` the platform delivers. */
  datatype EventKind = ContentChange | Create | Delete | Move | Copy | PropertyChange

  /** A `VirtualFile`, by its name and the path of its parent directory (none for a
      root). */
  datatype VFile = VFile(name: string, parentPath: Option<string>)

  /** An event and the file it is about, if it still has one. */
  datatype FileEvent = FileEvent(kind: EventKind, file: Option<VFile>)

  /** The file is `configFileName` directly in the project root. */
  predicate IsConfigFile(file: VFile, configFileName: string, basePath: string) {
    file.name == configFileName && file.parentPath == Some(basePath)
  }

  /** An event that triggers the callback: a content change, creation or deletion
      of the configuration file. */
  predicate Qualifies(e: FileEvent, configFileName: string, basePath: string) {
    && e.file.Some?
    && IsConfigFile(e.file.value, configFileName, basePath)
    && (e.kind == ContentChange || e.kind == Create || e.kind == Delete)
  }

  /** Whether a batch fires the callback: only with a base path, and only when some
      event qualifies. */
  predicate Fires(events: seq<FileEvent>, configFileName: string, basePath: Option<string>) {
    basePath.Some? && FirstIndex(events, e => Qualifies(e, configFileName, basePath.value)).Some?
  }

  /** A batch fires exactly when there is a base path and an event on the
      configuration file of one of the three kinds. */
  lemma FiresSpec(events: seq<FileEvent>, configFileName: string, basePath: Option<string>)
    ensures Fires(events, configFileName, basePath) <==>
              basePath.Some? &&
              exists i :: 0 <= i < |events| && Qualifies(events[i], configFileName, basePath.value)
  {
    if basePath.Some? {
      var q := e => Qualifies(e, configFileName, basePath.value);
      var r := FirstIndex(events, q);
      if r.Some? {
        assert q(events[r.value]);
      }
    }
  }

  /** An event without a file, a move, a copy or a property change never decides
      whether a batch fires, wherever in the batch it is inserted. */
  lemma IgnoredEventsChangeNothing(events: seq<FileEvent>, k: nat, ignored: FileEvent, configFileName: string, basePath: Option<string>)
    requires k <= |events|
    requires ignored.file.None? || ignored.kind == Move || ignored.kind == Copy || ignored.kind == PropertyChange
    ensures Fires(events[..k] + [ignored] + events[k..], configFileName, basePath) == Fires(events, configFileName, basePath)
  {
    var batch := events[..k] + [ignored] + events[k..];
    FiresSpec(batch, configFileName, basePath);
    FiresSpec(events, configFileName, basePath);
    if basePath.Some? {
      var p := basePath.value;
      if exists i :: 0 <= i < |batch| && Qualifies(batch[i], configFileName, p) {
        var i :| 0 <= i < |batch| && Qualifies(batch[i], configFileName, p);
        var j := if i < k then i else i - 1;
        assert events[j] == batch[i];
      }
      if exists j :: 0 <= j < |events| && Qualifies(events[j], configFileName, p) {
        var j :| 0 <= j < |events| && Qualifies(events[j], configFileName, p);
        var i := if j < k then j else j + 1;
        assert batch[i] == events[j];
      }
    }
  }

  class ConfigFileWatcher {
    const configFileName: string
    /** How many times `onConfigChanged` has been called. */
    var callbacks: nat

    constructor (configFileName: string)
      ensures this.configFileName == configFileName && callbacks == 0
    {
      this.configFileName := configFileName;
      callbacks := 0;
    }

    /** `after`: scan the batch, skip events without a file, and at the first event
        that qualifies call back once and stop. */
    method After(basePath: Option<string>, events: seq<FileEvent>)
      modifies this
      ensures callbacks == old(callbacks) + (if Fires(events, configFileName, basePath) then 1 else 0)
      ensures callbacks <= old(callbacks) + 1
    {
      if basePath.None? {
        return;
      }
      var projectBasePath := basePath.value;
      var i := 0;
      while i < |events|
        invariant 0 <= i <= |events|
        invariant callbacks == old(callbacks)
        invariant forall j :: 0 <= j < i ==> !Qualifies(events[j], configFileName, projectBasePath)
      {
        var event := events[i];
        if event.file.None? {
          i := i + 1;
          continue;
        }
        var file := event.file.value;
        if file.name == configFileName && file.parentPath == Some(projectBasePath) {
          if event.kind == ContentChange || event.kind == Create || event.kind == Delete {
            FirstIndexIsUnique(events, e => Qualifies(e, configFileName, projectBasePath), i);
            callbacks := callbacks + 1;
            return;
          }
        }
        i := i + 1;
      }
    }
  }

  /** A batch that saves the file twice and then deletes it calls back once; a batch
      about a file of the same name in a sub-directory does not call back. */
  method BatchScenario()
  {
    var watcher := new ConfigFileWatcher(".branch-colors.json");
    var config := VFile(".branch-colors.json", Some("/project"));
    var nested := VFile(".branch-colors.json", Some("/project/sub"));
    watcher.After(Some("/project"), [FileEvent(ContentChange, Some(config)), FileEvent(ContentChange, Some(config)),
                                     FileEvent(Delete, Some(config))]);
    assert watcher.callbacks == 1;
    watcher.After(Some("/project"), [FileEvent(Create, Some(nested)), FileEvent(Move, Some(config)), FileEvent(Create, None)]);
    assert !Qualifies(FileEvent(Create, Some(nested)), ".branch-colors.json", "/project");
    assert watcher.callbacks == 1;
    watcher.After(None, [FileEvent(Create, Some(config))]);
    assert watcher.callbacks == 1;
  }
}
