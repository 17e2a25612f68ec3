/** The route-config compiler run by `MultipleViewPageMixin.__init_subclass__`
    (wagtail_pdf_view/mixins.py): it reads a page class's ROUTE_CONFIG table and
    derives the class's DEFAULT_PREVIEW_MODES and its `serve_<key>` attributes,
    each wrapped by `route_function` with the entry's pattern and route name. */
module Routes {
  import opened Results

  /** One ROUTE_CONFIG entry `(key, pattern, *extra)`: the pattern is None or a
      string, `extra` holds the positional values that follow it. */
  datatype RouteEntry = RouteEntry(key: string, pattern: Option<string>, extra: seq<string>)

  /** Python truthiness of the pattern: None and "" both disable the entry. */
  predicate Enabled(e: RouteEntry) {
    e.pattern.Some? && e.pattern.value != ""
  }

  /** Name of the serve method bound for a key: "serve_{}".format(key). */
  function ServeName(key: string): string {
    "serve_" + key
  }

  /** get_preview_name: "<key> preview" (the translation is taken to be the identity). */
  function PreviewName(key: string): (display: string)
    ensures |display| == |key| + 8 && display[..|key|] == key && display[|key|..] == " preview"
  {
    key + " preview"
  }

  /** The arguments handed to route_function after the pattern: the entry's
      extras, or [key] when it has none. */
  function RouteArgs(e: RouteEntry): (args: seq<string>)
    ensures |args| > 0
    ensures e.extra == [] ==> args == [e.key]
    ensures e.extra != [] ==> args == e.extra
    ensures args[0] == if e.extra == [] then e.key else e.extra[0]
  {
    if e.extra == [] then [e.key] else e.extra
  }

  /** The reverse-lookup name of an entry's route. */
  function RouteName(e: RouteEntry): string {
    RouteArgs(e)[0]
  }

  /** A `(internal_name, display_name)` pair of DEFAULT_PREVIEW_MODES. */
  datatype PreviewMode = PreviewMode(key: string, display: string)

  function ModeOf(e: RouteEntry, getPreviewName: string -> string): PreviewMode {
    PreviewMode(e.key, getPreviewName(e.key))
  }

  /** A class attribute holding a serve method: the method as the class
      defines it, or `route_function(inner, pattern, *args)` around another. */
  datatype Handler = Defined(qualifiedName: string) | Routed(inner: Handler, pattern: string, args: seq<string>)

  /** The class while __init_subclass__ runs: the preview modes appended so
      far, the class attributes, and the attribute (ROUTE_CONFIG or a
      `serve_<key>`) whose lookup raised AttributeError, if any, which ends
      the loop. */
  datatype CompileState = CompileState(modes: seq<PreviewMode>, methods: map<string, Handler>, missing: Option<string>)

  /** One iteration of the loop: a disabled entry is skipped; an enabled one
      appends its preview mode first and then looks its serve method up. */
  function CompileStep(st: CompileState, e: RouteEntry, getPreviewName: string -> string): CompileState {
    if st.missing.Some? || !Enabled(e) then st
    else
      var modes := st.modes + [ModeOf(e, getPreviewName)];
      var name := ServeName(e.key);
      if name !in st.methods then CompileState(modes, st.methods, Some(name))
      else CompileState(modes, st.methods[name := Routed(st.methods[name], e.pattern.value, RouteArgs(e))], None)
  }

  /** The class state after the loop has run over `config`, starting from an
      emptied DEFAULT_PREVIEW_MODES and the class attributes `methods`. */
  function CompileRun(config: seq<RouteEntry>, methods: map<string, Handler>, getPreviewName: string -> string): (st: CompileState)
    ensures st.methods.Keys == methods.Keys
    ensures |st.modes| <= |config|
    ensures st.missing.Some? ==> st.missing.value !in methods
    decreases |config|
  {
    if config == [] then CompileState([], methods, None)
    else CompileStep(CompileRun(config[..|config| - 1], methods, getPreviewName), config[|config| - 1], getPreviewName)
  }

  datatype Compiled = Compiled(previewModes: seq<PreviewMode>, methods: map<string, Handler>)

  /** The AttributeError of getattr(cls, "serve_<key>"). */
  datatype CompileError = MissingServeMethod(name: string)

  /** Class creation: either the compiled class or the error that aborts it. */
  function Compile(config: seq<RouteEntry>, methods: map<string, Handler>, getPreviewName: string -> string): (r: Result<Compiled, CompileError>)
    ensures r.Ok? <==> AllServeMethods(config, methods)
    ensures r.Ok? ==> r.value.previewModes == PreviewModesOf(config, getPreviewName) && r.value.methods.Keys == methods.Keys
    ensures r.Err? ==> r.error.name !in methods
  {
    var st := CompileRun(config, methods, getPreviewName);
    CompileRunOkIff(config, methods, getPreviewName);
    if st.missing.Some? then Err(MissingServeMethod(st.missing.value))
    else
      CompileModes(config, methods, getPreviewName);
      Ok(Compiled(st.modes, st.methods))
  }

  const RouteConfigAttribute := "ROUTE_CONFIG"

  /** __init_subclass__ on a Page class: DEFAULT_PREVIEW_MODES is reset, then
      reading ROUTE_CONFIG raises AttributeError when the class has none. */
  function CompileClass(config: Option<seq<RouteEntry>>, methods: map<string, Handler>, getPreviewName: string -> string): CompileState {
    if config.None? then CompileState([], methods, Some(RouteConfigAttribute))
    else CompileRun(config.value, methods, getPreviewName)
  }

  /** The loop's state after one more entry of the table. */
  lemma CompileRunPrefix(config: seq<RouteEntry>, methods: map<string, Handler>, i: nat, getPreviewName: string -> string)
    requires i < |config|
    ensures CompileRun(config[..i + 1], methods, getPreviewName) == CompileStep(CompileRun(config[..i], methods, getPreviewName), config[i], getPreviewName)
  {
    assert config[..i + 1][..i] == config[..i];
    assert config[..i + 1][i] == config[i];
  }

  /** Reference definition: one preview mode per enabled entry, in table order. */
  function PreviewModesOf(config: seq<RouteEntry>, getPreviewName: string -> string): seq<PreviewMode>
    decreases |config|
  {
    if config == [] then [] else EntryModes(config[0], getPreviewName) + PreviewModesOf(config[1..], getPreviewName)
  }

  /** The preview modes one entry contributes: its own when enabled, else none. */
  function EntryModes(e: RouteEntry, getPreviewName: string -> string): seq<PreviewMode> {
    if Enabled(e) then [ModeOf(e, getPreviewName)] else []
  }

  /** True when no enabled entry of `config` binds the serve method `name`. */
  predicate NotBound(config: seq<RouteEntry>, name: string) {
    forall i | 0 <= i < |config| :: Enabled(config[i]) ==> ServeName(config[i].key) != name
  }

  /** All serve methods the enabled entries of `config` need are present. */
  predicate AllServeMethods(config: seq<RouteEntry>, methods: map<string, Handler>) {
    forall i | 0 <= i < |config| :: Enabled(config[i]) ==> ServeName(config[i].key) in methods
  }

  lemma ServeNameInjective(a: string, b: string)
    ensures ServeName(a) == ServeName(b) ==> a == b
  {
    if ServeName(a) == ServeName(b) {
      assert a == ServeName(a)[6..];
      assert b == ServeName(b)[6..];
    }
  }

  /** The reference definition distributes over concatenation of tables. */
  lemma {:induction false} PreviewModesAppend(a: seq<RouteEntry>, b: seq<RouteEntry>, getPreviewName: string -> string)
    ensures PreviewModesOf(a + b, getPreviewName) == PreviewModesOf(a, getPreviewName) + PreviewModesOf(b, getPreviewName)
    decreases |a|
  {
    if a == [] {
      assert a + b == b;
    } else {
      var ab := a + b;
      assert ab[0] == a[0];
      assert ab[1..] == a[1..] + b;
      PreviewModesAppend(a[1..], b, getPreviewName);
      calc {
        PreviewModesOf(ab, getPreviewName);
        EntryModes(a[0], getPreviewName) + PreviewModesOf(a[1..] + b, getPreviewName);
        EntryModes(a[0], getPreviewName) + (PreviewModesOf(a[1..], getPreviewName) + PreviewModesOf(b, getPreviewName));
        (EntryModes(a[0], getPreviewName) + PreviewModesOf(a[1..], getPreviewName)) + PreviewModesOf(b, getPreviewName);
      }
    }
  }

  /** Both directions of membership: each enabled entry yields its mode, and
      every mode comes from an enabled entry. */
  lemma {:induction false} PreviewModesMembers(config: seq<RouteEntry>, getPreviewName: string -> string)
    ensures forall i | 0 <= i < |config| :: Enabled(config[i]) ==> ModeOf(config[i], getPreviewName) in PreviewModesOf(config, getPreviewName)
    ensures forall m | m in PreviewModesOf(config, getPreviewName) :: exists i :: 0 <= i < |config| && Enabled(config[i]) && m == ModeOf(config[i], getPreviewName)
    decreases |config|
  {
    if config != [] {
      PreviewModesMembers(config[1..], getPreviewName);
      var rest := config[1..];
      forall i | 0 <= i < |config| && Enabled(config[i])
        ensures ModeOf(config[i], getPreviewName) in PreviewModesOf(config, getPreviewName)
      {
        if i > 0 {
          assert config[i] == rest[i - 1];
        }
      }
      forall m | m in PreviewModesOf(config, getPreviewName)
        ensures exists i :: 0 <= i < |config| && Enabled(config[i]) && m == ModeOf(config[i], getPreviewName)
      {
        if m !in PreviewModesOf(rest, getPreviewName) {
          assert Enabled(config[0]) && m == ModeOf(config[0], getPreviewName);
        } else {
          var j :| 0 <= j < |rest| && Enabled(rest[j]) && m == ModeOf(rest[j], getPreviewName);
          assert config[j + 1] == rest[j];
        }
      }
    }
  }

  /** Disabling one entry (a subclass redeclaring it with a None pattern)
      removes exactly that entry's preview mode and keeps the others in order. */
  lemma DisableEntry(config: seq<RouteEntry>, i: nat, getPreviewName: string -> string)
    requires i < |config|
    ensures Enabled(config[i]) ==> PreviewModesOf(config, getPreviewName) == PreviewModesOf(config[..i], getPreviewName) + [ModeOf(config[i], getPreviewName)] + PreviewModesOf(config[i + 1..], getPreviewName)
    ensures PreviewModesOf(config[i := config[i].(pattern := None)], getPreviewName) == PreviewModesOf(config[..i], getPreviewName) + PreviewModesOf(config[i + 1..], getPreviewName)
  {
    var pre, post := config[..i], config[i + 1..];
    var on, off := config[i], config[i].(pattern := None);
    assert config == pre + ([on] + post);
    assert config[i := off] == pre + ([off] + post);
    PreviewModesAppend(pre, [on] + post, getPreviewName);
    PreviewModesAppend(pre, [off] + post, getPreviewName);
    assert PreviewModesOf([on] + post, getPreviewName) == EntryModes(on, getPreviewName) + PreviewModesOf(post, getPreviewName) by {
      assert ([on] + post)[1..] == post;
    }
    assert PreviewModesOf([off] + post, getPreviewName) == PreviewModesOf(post, getPreviewName) by {
      assert ([off] + post)[1..] == post;
    }
  }

  /** Once a serve method was missing, later entries change nothing. */
  lemma {:induction false} CompileStuck(config: seq<RouteEntry>, methods: map<string, Handler>, k: nat, getPreviewName: string -> string)
    requires k <= |config|
    requires CompileRun(config[..k], methods, getPreviewName).missing.Some?
    ensures CompileRun(config, methods, getPreviewName) == CompileRun(config[..k], methods, getPreviewName)
    decreases |config| - k
  {
    if k < |config| {
      var n := |config|;
      assert config[..n - 1][..k] == config[..k];
      CompileStuck(config[..n - 1], methods, k, getPreviewName);
      assert config[..n] == config;
    } else {
      assert config[..k] == config;
    }
  }

  /** The compiled class has the same attribute names, and every attribute no
      enabled entry binds keeps its value. */
  lemma {:induction false} CompileFrame(config: seq<RouteEntry>, methods: map<string, Handler>, getPreviewName: string -> string)
    ensures CompileRun(config, methods, getPreviewName).methods.Keys == methods.Keys
    ensures forall name | name in methods && NotBound(config, name) :: CompileRun(config, methods, getPreviewName).methods[name] == methods[name]
    decreases |config|
  {
    if config != [] {
      var n := |config|;
      var init := config[..n - 1];
      CompileFrame(init, methods, getPreviewName);
      forall name | name in methods && NotBound(config, name)
        ensures CompileRun(config, methods, getPreviewName).methods[name] == methods[name]
      {
        assert NotBound(init, name) by {
          forall i | 0 <= i < |init| ensures Enabled(init[i]) ==> ServeName(init[i].key) != name {
            assert init[i] == config[i];
          }
        }
      }
    }
  }

  /** Compilation succeeds exactly when every enabled key has its serve method. */
  lemma {:induction false} CompileRunOkIff(config: seq<RouteEntry>, methods: map<string, Handler>, getPreviewName: string -> string)
    ensures CompileRun(config, methods, getPreviewName).missing.None? <==> AllServeMethods(config, methods)
    decreases |config|
  {
    if config != [] {
      var n := |config|;
      var init, last := config[..n - 1], config[n - 1];
      CompileRunOkIff(init, methods, getPreviewName);
      var st := CompileRun(init, methods, getPreviewName);
      assert CompileRun(config, methods, getPreviewName) == CompileStep(st, last, getPreviewName);
      assert forall i | 0 <= i < n - 1 :: init[i] == config[i];
      assert AllServeMethods(config, methods) <==>
        AllServeMethods(init, methods) && (Enabled(last) ==> ServeName(last.key) in methods);
    }
  }

  /** The error names the serve method of the first enabled entry whose
      method is missing. */
  lemma {:induction false} CompileErrFirst(config: seq<RouteEntry>, methods: map<string, Handler>, getPreviewName: string -> string)
    requires Compile(config, methods, getPreviewName).Err?
    ensures exists i ::
      && 0 <= i < |config| && Enabled(config[i])
      && Compile(config, methods, getPreviewName).error.name == ServeName(config[i].key)
      && ServeName(config[i].key) !in methods
      && AllServeMethods(config[..i], methods)
    decreases |config|
  {
    var n := |config|;
    var init := config[..n - 1];
    CompileFrame(init, methods, getPreviewName);
    assert forall i | 0 <= i < n - 1 :: init[i] == config[i];
    if CompileRun(init, methods, getPreviewName).missing.Some? {
      CompileErrFirst(init, methods, getPreviewName);
      var i :| 0 <= i < |init| && Enabled(init[i])
        && Compile(init, methods, getPreviewName).error.name == ServeName(init[i].key)
        && ServeName(init[i].key) !in methods
        && AllServeMethods(init[..i], methods);
      assert init[..i] == config[..i];
    } else {
      CompileRunOkIff(init, methods, getPreviewName);
      assert init == config[..n - 1];
    }
  }

  /** On success DEFAULT_PREVIEW_MODES is exactly the reference list. */
  lemma {:induction false} CompileModes(config: seq<RouteEntry>, methods: map<string, Handler>, getPreviewName: string -> string)
    requires CompileRun(config, methods, getPreviewName).missing.None?
    ensures CompileRun(config, methods, getPreviewName).modes == PreviewModesOf(config, getPreviewName)
    decreases |config|
  {
    if config != [] {
      var n := |config|;
      var init := config[..n - 1];
      CompileModes(init, methods, getPreviewName);
      assert config == init + [config[n - 1]];
      PreviewModesAppend(init, [config[n - 1]], getPreviewName);
      assert [config[n - 1]][1..] == [];
    }
  }

  /** The entry that binds `serve_<key>` last is the outermost route_function
      wrapper: its pattern and its route arguments (the first being the route
      name: the first extra value, or the key) are what the class exposes. */
  lemma {:induction false} CompileBindsLast(config: seq<RouteEntry>, methods: map<string, Handler>, i: nat, getPreviewName: string -> string)
    requires i < |config| && Enabled(config[i])
    requires NotBound(config[i + 1..], ServeName(config[i].key))
    requires Compile(config, methods, getPreviewName).Ok?
    ensures ServeName(config[i].key) in Compile(config, methods, getPreviewName).value.methods
    ensures var h := Compile(config, methods, getPreviewName).value.methods[ServeName(config[i].key)];
      h.Routed? && h.pattern == config[i].pattern.value && h.args == RouteArgs(config[i])
      && h.args[0] == (if config[i].extra == [] then config[i].key else config[i].extra[0])
    decreases |config|
  {
    var n := |config|;
    var init, last := config[..n - 1], config[n - 1];
    var name := ServeName(config[i].key);
    var st := CompileRun(init, methods, getPreviewName);
    assert CompileRun(config, methods, getPreviewName) == CompileStep(st, last, getPreviewName);
    assert st.missing.None?;
    if i == n - 1 {
      assert name in st.methods;
    } else {
      var tail, rest := init[i + 1..], config[i + 1..];
      assert NotBound(tail, name) by {
        forall j | 0 <= j < |tail| ensures Enabled(tail[j]) ==> ServeName(tail[j].key) != name {
          assert tail[j] == rest[j];
        }
      }
      CompileBindsLast(init, methods, i, getPreviewName);
      assert rest[n - 1 - (i + 1)] == last;
      assert Enabled(last) ==> ServeName(last.key) != name;
    }
  }

  /** For a key that only one enabled entry uses, the compiled class wraps the
      class's own serve method exactly once. */
  lemma CompileBindsUnique(config: seq<RouteEntry>, methods: map<string, Handler>, i: nat, getPreviewName: string -> string)
    requires i < |config| && Enabled(config[i])
    requires forall j | 0 <= j < |config| && j != i :: Enabled(config[j]) ==> config[j].key != config[i].key
    requires Compile(config, methods, getPreviewName).Ok?
    ensures ServeName(config[i].key) in methods
    ensures ServeName(config[i].key) in Compile(config, methods, getPreviewName).value.methods
    ensures var name := ServeName(config[i].key);
      Compile(config, methods, getPreviewName).value.methods[name] == Routed(methods[name], config[i].pattern.value, RouteArgs(config[i]))
  {
    var name := ServeName(config[i].key);
    var init, rest := config[..i], config[i + 1..];
    CompileRunOkIff(config, methods, getPreviewName);
    assert name in methods;
    assert NotBound(init, name) by {
      forall j | 0 <= j < |init| ensures Enabled(init[j]) ==> ServeName(init[j].key) != name {
        assert init[j] == config[j];
        ServeNameInjective(init[j].key, config[i].key);
      }
    }
    assert NotBound(rest, name) by {
      forall j | 0 <= j < |rest| ensures Enabled(rest[j]) ==> ServeName(rest[j].key) != name {
        assert rest[j] == config[i + 1 + j];
        ServeNameInjective(rest[j].key, config[i].key);
      }
    }
    assert AllServeMethods(init, methods) by {
      forall j | 0 <= j < |init| ensures Enabled(init[j]) ==> ServeName(init[j].key) in methods {
        assert init[j] == config[j];
      }
    }
    CompileRunOkIff(init, methods, getPreviewName);
    CompileFrame(init, methods, getPreviewName);
    CompileRunPrefix(config, methods, i, getPreviewName);
    assert CompileRun(config[..i + 1], methods, getPreviewName).methods[name] == Routed(methods[name], config[i].pattern.value, RouteArgs(config[i]));
    CompileSuffixFrame(config, methods, i + 1, name, getPreviewName);
  }

  /** Entries after position k that do not bind `name` leave it as it was. */
  lemma {:induction false} CompileSuffixFrame(config: seq<RouteEntry>, methods: map<string, Handler>, k: nat, name: string, getPreviewName: string -> string)
    requires k <= |config|
    requires CompileRun(config, methods, getPreviewName).missing.None?
    requires name in CompileRun(config[..k], methods, getPreviewName).methods
    requires NotBound(config[k..], name)
    ensures name in CompileRun(config, methods, getPreviewName).methods
    ensures CompileRun(config, methods, getPreviewName).methods[name] == CompileRun(config[..k], methods, getPreviewName).methods[name]
    decreases |config| - k
  {
    var n := |config|;
    if k == n {
      assert config[..k] == config;
    } else {
      var init := config[..n - 1];
      assert init[..k] == config[..k];
      var tail, rest := init[k..], config[k..];
      assert NotBound(tail, name) by {
        forall j | 0 <= j < |tail| ensures Enabled(tail[j]) ==> ServeName(tail[j].key) != name {
          assert tail[j] == rest[j];
        }
      }
      assert CompileRun(init, methods, getPreviewName).missing.None?;
      CompileSuffixFrame(init, methods, k, name, getPreviewName);
      assert config[k..][n - 1 - k] == config[n - 1];
    }
  }

  /** The table of the MultipleViewPageMixin docstring (mixins.py:53-56),
      ("html", "^$") and ("pdf", "^pdf/$"), yields the preview modes
      ("html", "html preview") and ("pdf", "pdf preview") once its serve
      methods exist. */
  lemma DocumentedExampleModes(methods: map<string, Handler>)
    requires ServeName("html") in methods && ServeName("pdf") in methods
    ensures var config := [RouteEntry("html", Some("^$"), []), RouteEntry("pdf", Some("^pdf/$"), [])];
      Compile(config, methods, PreviewName).Ok?
      && Compile(config, methods, PreviewName).value.previewModes == [PreviewMode("html", "html preview"), PreviewMode("pdf", "pdf preview")]
  {
    var config := [RouteEntry("html", Some("^$"), []), RouteEntry("pdf", Some("^pdf/$"), [])];
    CompileRunOkIff(config, methods, PreviewName);
    CompileModes(config, methods, PreviewName);
    assert PreviewName("html") == "html preview" && PreviewName("pdf") == "pdf preview";
    assert config[1..][1..] == [];
  }

  /** The subclass of the MultipleViewPageMixin docstring (mixins.py:74-77)
      that disables "html" with ("pdf", "^$"), ("html", None) re-wraps the inherited, already routed
      serve_pdf once more, but leaves the inherited serve_html wrapped with
      its parent's pattern "^$": disabling an entry does not unroute it. */
  lemma DisabledEntryKeepsInheritedRoute(methods: map<string, Handler>)
    requires ServeName("html") in methods && ServeName("pdf") in methods
    ensures var parentConfig := [RouteEntry("html", Some("^$"), []), RouteEntry("pdf", Some("^pdf/$"), [])];
      var childConfig := [RouteEntry("pdf", Some("^$"), []), RouteEntry("html", None, [])];
      var parent := Compile(parentConfig, methods, PreviewName);
      parent.Ok? && Compile(childConfig, parent.value.methods, PreviewName).Ok?
      && var child := Compile(childConfig, parent.value.methods, PreviewName).value;
      child.previewModes == [PreviewMode("pdf", "pdf preview")]
      && child.methods[ServeName("html")] == Routed(methods[ServeName("html")], "^$", ["html"])
      && child.methods[ServeName("pdf")] == Routed(Routed(methods[ServeName("pdf")], "^pdf/$", ["pdf"]), "^$", ["pdf"])
  {
    var html, pdf := ServeName("html"), ServeName("pdf");
    assert html != pdf by { assert html[6] != pdf[6]; }
    var parentConfig := [RouteEntry("html", Some("^$"), []), RouteEntry("pdf", Some("^pdf/$"), [])];
    var childConfig := [RouteEntry("pdf", Some("^$"), []), RouteEntry("html", None, [])];
    assert parentConfig[..1] == [parentConfig[0]] && [parentConfig[0]][..0] == [];
    assert childConfig[..1] == [childConfig[0]] && [childConfig[0]][..0] == [];
    assert RouteArgs(parentConfig[0]) == ["html"] && RouteArgs(parentConfig[1]) == ["pdf"] && RouteArgs(childConfig[0]) == ["pdf"];
    var p1 := CompileStep(CompileState([], methods, None), parentConfig[0], PreviewName);
    assert p1.methods == methods[html := Routed(methods[html], "^$", ["html"])];
    var p2 := CompileStep(p1, parentConfig[1], PreviewName);
    assert p2.methods == p1.methods[pdf := Routed(methods[pdf], "^pdf/$", ["pdf"])];
    assert CompileRun(parentConfig[..1], methods, PreviewName) == p1;
    assert CompileRun(parentConfig, methods, PreviewName) == p2;
    assert p2.missing.None?;
    var c1 := CompileStep(CompileState([], p2.methods, None), childConfig[0], PreviewName);
    assert c1.methods == p2.methods[pdf := Routed(p2.methods[pdf], "^$", ["pdf"])];
    assert c1.modes == [PreviewMode("pdf", PreviewName("pdf"))];
    assert PreviewName("pdf") == "pdf preview";
    assert CompileRun(childConfig[..1], p2.methods, PreviewName) == c1;
    assert CompileRun(childConfig, p2.methods, PreviewName) == CompileStep(c1, childConfig[1], PreviewName) == c1;
  }
}
