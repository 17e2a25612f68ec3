/** The dispatch rule of `MultipleViewPageMixin.serve_preview`
    (wagtail_pdf_view/mixins.py): a mode listed among the page's preview modes
    is served by `serve_preview_<mode>` when the page has it, else by
    `serve_<mode>`; any other mode goes to the parent class's serve_preview. */
module PreviewDispatch {
  import opened Routes

  /** Name of the preview-specific serve method of a mode. */
  function PreviewServeName(mode: string): string {
    "serve_preview_" + mode
  }

  /** `[mode[0] for mode in self.preview_modes]` */
  function ModeNames(modes: seq<PreviewMode>): (names: seq<string>)
    ensures forall name :: name in names <==> exists i :: 0 <= i < |modes| && modes[i].key == name
  {
    var names := seq(|modes|, i requires 0 <= i < |modes| => modes[i].key);
    assert forall i | 0 <= i < |modes| :: names[i] == modes[i].key;
    names
  }

  /** What serve_preview does with a mode: call a serve method of the page,
      delegate to the parent class, or fail with the AttributeError of the
      second getattr. */
  datatype Dispatch = CallHandler(name: string) | DelegateToParent | MissingHandler(name: string)

  function DispatchPreview(modes: seq<PreviewMode>, methods: set<string>, mode: string): (d: Dispatch)
    ensures d.DelegateToParent? <==> forall i | 0 <= i < |modes| :: modes[i].key != mode
    ensures d.CallHandler? ==> d.name in methods && d.name in {PreviewServeName(mode), ServeName(mode)}
    ensures d.CallHandler? && d.name == ServeName(mode) ==> PreviewServeName(mode) !in methods
    ensures d.MissingHandler? <==> !d.DelegateToParent? && PreviewServeName(mode) !in methods && ServeName(mode) !in methods
    ensures d.MissingHandler? ==> d.name == ServeName(mode)
  {
    if mode !in ModeNames(modes) then DelegateToParent
    else if PreviewServeName(mode) in methods then CallHandler(PreviewServeName(mode))
    else if ServeName(mode) in methods then CallHandler(ServeName(mode))
    else MissingHandler(ServeName(mode))
  }

  /** On a class whose compilation succeeded, every listed preview mode has a
      serve method, so serve_preview never raises AttributeError, and the
      modes it serves itself are exactly the enabled keys of ROUTE_CONFIG. */
  lemma CompiledPreviewServes(config: seq<RouteEntry>, methods: map<string, Handler>, mode: string, getPreviewName: string -> string)
    requires Compile(config, methods, getPreviewName).Ok?
    ensures var c := Compile(config, methods, getPreviewName).value;
      !DispatchPreview(c.previewModes, c.methods.Keys, mode).MissingHandler?
    ensures var c := Compile(config, methods, getPreviewName).value;
      DispatchPreview(c.previewModes, c.methods.Keys, mode).DelegateToParent?
      <==> forall i | 0 <= i < |config| :: Enabled(config[i]) ==> config[i].key != mode
  {
    var c := Compile(config, methods, getPreviewName).value;
    CompileModes(config, methods, getPreviewName);
    CompileFrame(config, methods, getPreviewName);
    CompileRunOkIff(config, methods, getPreviewName);
    PreviewModesMembers(config, getPreviewName);
    if exists i :: 0 <= i < |c.previewModes| && c.previewModes[i].key == mode {
      var i :| 0 <= i < |c.previewModes| && c.previewModes[i].key == mode;
      assert c.previewModes[i] in PreviewModesOf(config, getPreviewName);
      var j :| 0 <= j < |config| && Enabled(config[j]) && c.previewModes[i] == ModeOf(config[j], getPreviewName);
      assert ServeName(mode) in methods;
    }
    if exists j :: 0 <= j < |config| && Enabled(config[j]) && config[j].key == mode {
      var j :| 0 <= j < |config| && Enabled(config[j]) && config[j].key == mode;
      assert ModeOf(config[j], getPreviewName) in c.previewModes;
      var i :| 0 <= i < |c.previewModes| && c.previewModes[i] == ModeOf(config[j], getPreviewName);
      assert c.previewModes[i].key == mode;
    }
  }
}
