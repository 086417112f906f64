/** The persisted settings document and how `load_settings` obtains it.
    The file is an input variant and every save is an output value: no I/O. */
module Settings {
  import opened Wrappers
  import opened Geometry

  /** The JSON document: `dock_position`, `transparency`, `dock_color` and
      `dock_size` with its `width` and `height`. */
  datatype SettingsDoc = SettingsDoc(dockPosition: string, transparency: int, dockColor: string, dockSize: Size)

  /** What `settings.json` holds when it is read: no file, a file that cannot
      be opened or parsed, or a document carrying every key. */
  datatype SettingsFile = Missing | Unreadable | Parsed(doc: SettingsDoc)

  /** The settings a load hands to the dock, and the document it saves, if any. */
  datatype LoadResult = LoadResult(settings: SettingsDoc, saved: Option<SettingsDoc>)

  /** The values the settings dialog can produce: one of the four edges,
      transparency 0 to 100, width 40 to 200, height 120 to 600. */
  predicate InDialogRanges(d: SettingsDoc) {
    && IsEdge(d.dockPosition)
    && 0 <= d.transparency <= 100
    && 40 <= d.dockSize.width <= 200
    && 120 <= d.dockSize.height <= 600
  }

  /** `get_default_settings`: docked left, 60% transparent, black, 50 by 300;
      a document the settings dialog could itself have produced. */
  function DefaultSettings(): (d: SettingsDoc)
    ensures d.dockPosition == EDGE_LEFT && d.dockColor == "#000000"
    ensures InDialogRanges(d)
  {
    SettingsDoc(EDGE_LEFT, 60, "#000000", Size(50, 300))
  }

  /** `load_settings` without the file system: a parsed document is used as it
      is and nothing is written; a missing or unreadable file yields the
      defaults, which are saved at once. */
  function Load(file: SettingsFile): (r: LoadResult)
    ensures r.saved.Some? <==> !file.Parsed?
    ensures file.Parsed? ==> r.settings == file.doc
    ensures !file.Parsed? ==> r.settings == DefaultSettings() && r.saved == Some(r.settings)
  {
    match file
    case Parsed(doc) => LoadResult(doc, None)
    case _ =>
      var d := DefaultSettings();
      LoadResult(d, Some(d))
  }

  /** What `settings.json` holds once a load's save has been written. */
  function FileAfterLoad(file: SettingsFile): SettingsFile {
    match Load(file).saved
    case Some(d) => Parsed(d)
    case None => file
  }

  /** Loading is stable: reading the file again after a load yields the same
      settings and writes nothing, whatever the file held the first time. */
  lemma ReloadIsStable(file: SettingsFile)
    ensures Load(FileAfterLoad(file)) == LoadResult(Load(file).settings, None)
  {
  }
}
