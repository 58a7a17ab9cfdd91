/** The on-disk project schema: `project.json` as typed records, and what a
    directory under the projects root holds. Every key the editor reads has
    its own field (absent keys are `None`); the keys it does not read are
    kept as JSON in `extra`, so rewriting a manifest cannot lose them. */
module ProjectManifest {
  import opened Common

  datatype Point = Point(x: int, y: int)
  datatype Extent = Extent(width: int, height: int)

  /** One entry of the manifest's `layers` array. `kind` is the JSON key
      `type`. */
  datatype Layer = Layer(
    id: Option<int>,
    kind: Option<string>,
    name: Option<string>,
    position: Option<Point>,
    size: Option<Extent>,
    color: Option<string>,
    visible: Option<bool>,
    extra: map<string, Json>)

  datatype Resolution = Resolution(width: Option<int>, height: Option<int>)

  datatype Manifest = Manifest(
    id: Option<string>,
    name: Option<string>,
    formatVersion: Option<string>,
    editorVersion: Option<string>,
    resolution: Option<Resolution>,
    layers: Option<seq<Layer>>,
    properties: Option<map<string, Json>>,
    extra: map<string, Json>)

  /** What reading `<dir>/project.json` gives. */
  datatype ManifestFile =
    | Missing                    // no such file: reading raises FileNotFoundError
    | Unreadable                 // reading raises another OSError, or the text is not JSON
    | Undecodable                // the bytes are not valid text: `read_text` raises UnicodeDecodeError
    | NotAnObject                // valid JSON whose top level is not an object
    | Parsed(manifest: Manifest)
  {
    /** Using the manifest raises an error that the editor's handlers,
        `except (json.JSONDecodeError, OSError)`, do not catch: a
        UnicodeDecodeError (a ValueError) from the read, or an AttributeError
        from `data.get` on a value that is not a dict. */
    predicate RaisesUncaught() {
      Undecodable? || NotAnObject?
    }
  }

  /** One name in the projects root: a plain file, or a directory. */
  datatype Entry = File | Dir(manifest: ManifestFile)

  const FormatVersion := "1.0.0"
  /** The library's `AWE_VERSION`, written as `editor_version`. */
  const EditorVersion := "0.0.2"

  /** The manifest a new project starts with. */
  function InitialManifest(projectId: string, name: string, width: int, height: int): Manifest {
    Manifest(
      id := Some(projectId),
      name := Some(name),
      formatVersion := Some(FormatVersion),
      editorVersion := Some(EditorVersion),
      resolution := Some(Resolution(Some(width), Some(height))),
      layers := Some([]),
      properties := Some(map[]),
      extra := map[])
  }
}
