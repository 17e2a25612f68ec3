/** The stateful side of `MultipleViewPageMixin` (wagtail_pdf_view/mixins.py):
    a page class whose attributes `__init_subclass__` rewrites, and a page
    instance whose `__init__` sets its `url_<key>` attributes and whose
    `serve_preview` marks the request and the response. */
module Pages {
  import opened Results
  import opened Routes
  import opened ViewUrls
  import opened PreviewDispatch

  /** A page class at definition time. Its attributes that hold serve
      methods are `methods`; `isPage` is issubclass(cls, Page); `routeConfig`
      is its ROUTE_CONFIG, None when neither it nor a base class declares
      one; `getPreviewName` is its get_preview_name classmethod. */
  class PageClass {
    const isPage: bool
    const routeConfig: Option<seq<RouteEntry>>
    const getPreviewName: string -> string
    var defaultPreviewModes: seq<PreviewMode>
    var methods: map<string, Handler>

    /** DEFAULT_PREVIEW_MODES lists the modes of the class's own ROUTE_CONFIG,
        as __init_subclass__ leaves it when it succeeds. */
    predicate ModesCompiled()
      reads this
    {
      routeConfig.Some? && defaultPreviewModes == PreviewModesOf(routeConfig.value, getPreviewName)
    }

    /** A class whose DEFAULT_PREVIEW_MODES is still the inherited one. */
    constructor (isPage: bool, routeConfig: Option<seq<RouteEntry>>, getPreviewName: string -> string,
                 inheritedModes: seq<PreviewMode>, methods: map<string, Handler>)
      ensures this.isPage == isPage && this.routeConfig == routeConfig && this.getPreviewName == getPreviewName
      ensures defaultPreviewModes == inheritedModes && this.methods == methods
    {
      this.isPage := isPage;
      this.routeConfig := routeConfig;
      this.getPreviewName := getPreviewName;
      this.defaultPreviewModes := inheritedModes;
      this.methods := methods;
    }

    /** __init_subclass__: on a Page class, resets DEFAULT_PREVIEW_MODES and,
        entry by entry, appends the preview mode of each enabled key and wraps
        its serve method with route_function; `missing` is the attribute
        (ROUTE_CONFIG or a serve method) whose lookup raised AttributeError.
        Any other class is left as it is. */
    method InitSubclass() returns (missing: Option<string>)
      modifies this
      ensures !isPage ==> missing == None && defaultPreviewModes == old(defaultPreviewModes) && methods == old(methods)
      ensures isPage ==> CompileClass(routeConfig, old(methods), getPreviewName) == CompileState(defaultPreviewModes, methods, missing)
      ensures isPage ==> (missing.None? <==> routeConfig.Some? && AllServeMethods(routeConfig.value, old(methods)))
      ensures isPage && missing.None? ==> ModesCompiled()
      ensures methods.Keys == old(methods).Keys
    {
      missing := None;
      if !isPage {
        return;
      }
      defaultPreviewModes := [];
      if routeConfig.None? {
        missing := Some(RouteConfigAttribute);
        return;
      }
      var config := routeConfig.value;
      var i := 0;
      while i < |config|
        invariant 0 <= i <= |config|
        invariant CompileRun(config[..i], old(methods), getPreviewName) == CompileState(defaultPreviewModes, methods, None)
      {
        var e := config[i];
        CompileRunPrefix(config, old(methods), i, getPreviewName);
        if Enabled(e) {
          defaultPreviewModes := defaultPreviewModes + [PreviewMode(e.key, getPreviewName(e.key))];
          var serveMethod := ServeName(e.key);
          var args := if e.extra == [] then [e.key] else e.extra;
          if serveMethod !in methods {
            missing := Some(serveMethod);
            CompileStuck(config, old(methods), i + 1, getPreviewName);
            CompileRunOkIff(config, old(methods), getPreviewName);
            return;
          }
          methods := methods[serveMethod := Routed(methods[serveMethod], e.pattern.value, args)];
        }
        assert CompileRun(config[..i + 1], old(methods), getPreviewName) == CompileState(defaultPreviewModes, methods, None);
        i := i + 1;
      }
      assert config[..i] == config;
      CompileRunOkIff(config, old(methods), getPreviewName);
      CompileModes(config, old(methods), getPreviewName);
    }
  }

  /** The parts of a Django request that serve_preview touches. */
  class Request {
    var isPreview: bool

    constructor ()
      ensures !isPreview
    {
      isPreview := false;
    }
  }

  /** An abstract response: its content and whether Cache-Control carries
      the `private` directive. */
  datatype Response = Response(content: string, cachePrivate: bool)

  /** The AttributeError of getattr(self, "serve_<mode>"). */
  datatype PreviewError<E> = MissingAttribute(name: string) | Raised(exception: E)

  /** An exception of a called serve method, passed on unchanged. */
  function PassOn<E>(r: Result<Response, E>): Result<Response, PreviewError<E>> {
    match r
    case Ok(response) => Ok(response)
    case Err(e) => Err(Raised(e))
  }

  /** A page instance: its class, its own URL (`self.url`, None when the
      page is not routable) and the attributes `hasattr` can see. */
  class Page {
    const cls: PageClass
    const url: Option<string>
    var attrs: Attributes

    /** The state right after super().__init__. */
    constructor (cls: PageClass, url: Option<string>, attrs: Attributes)
      ensures this.cls == cls && this.url == url && this.attrs == attrs
    {
      this.cls := cls;
      this.url := url;
      this.attrs := attrs;
    }

    /** preview_modes: the DEFAULT_PREVIEW_MODES of the page's class. */
    function PreviewModes(): seq<PreviewMode>
      reads cls
    {
      cls.defaultPreviewModes
    }

    /** After a successful __init_subclass__ the page's preview modes are
        those of the enabled entries of its class's ROUTE_CONFIG. */
    lemma PreviewModesCompiled()
      requires cls.ModesCompiled()
      ensures forall i | 0 <= i < |cls.routeConfig.value| && Enabled(cls.routeConfig.value[i]) ::
        ModeOf(cls.routeConfig.value[i], cls.getPreviewName) in PreviewModes()
      ensures forall m | m in PreviewModes() ::
        exists i :: 0 <= i < |cls.routeConfig.value| && Enabled(cls.routeConfig.value[i]) && m == ModeOf(cls.routeConfig.value[i], cls.getPreviewName)
    {
      PreviewModesMembers(cls.routeConfig.value, cls.getPreviewName);
    }

    /** The loop of __init__: sets `url_<key>` for every enabled key that has
        no such attribute yet; stops with the TypeError of `None + str` when
        the page has no URL, or with an AttributeError when the class has no
        ROUTE_CONFIG. */
    method AssignViewUrls(reverseSubpage: string -> string) returns (error: Option<UrlError>)
      modifies this
      ensures match AssignClassUrls(cls.routeConfig, old(attrs), url, reverseSubpage)
        case Ok(r) => error.None? && attrs == r
        case Err(e) => error == Some(e) && attrs == old(attrs)
    {
      error := None;
      if cls.routeConfig.None? {
        return Some(MissingRouteConfig);
      }
      var config := cls.routeConfig.value;
      var i := 0;
      while i < |config|
        invariant 0 <= i <= |config|
        invariant AssignUrls(config[..i], old(attrs), url, reverseSubpage) == Ok(attrs)
        invariant url.None? ==> attrs == old(attrs)
      {
        var e := config[i];
        assert config[..i + 1][..i] == config[..i];
        var routeArgs := if e.extra == [] then [e.key] else e.extra;
        if Enabled(e) && UrlName(e.key) !in attrs {
          var name := routeArgs[0];
          if url.None? {
            error := Some(NoPageUrl(UrlName(e.key)));
            AssignUrlsStuck(config, old(attrs), url, reverseSubpage, i + 1);
            return;
          }
          var base := url.value;
          if base != "" && base[|base| - 1] != '/' {
            base := base + "/";
          }
          attrs := attrs[UrlName(e.key) := base + reverseSubpage(name)];
        }
        i := i + 1;
      }
      assert config[..i] == config;
    }

    /** serve_preview: marks the request as a preview, then serves a listed
        mode with serve_preview_<mode> or serve_<mode> and a private response,
        or hands any other mode to the parent class. `serve` stands for the
        page's serve methods and `parentServePreview` for Wagtail's; both get
        the request's is_preview flag as they see it, and an exception either
        raises is passed on unchanged, without the private flag and without
        trying serve_<mode> after serve_preview_<mode>. */
    method ServePreview<E>(request: Request, mode: string,
                           serve: (string, bool) -> Result<Response, E>,
                           parentServePreview: (string, bool) -> Result<Response, E>)
      returns (outcome: Result<Response, PreviewError<E>>)
      modifies request
      ensures request.isPreview
      ensures match DispatchPreview(PreviewModes(), cls.methods.Keys, mode)
        case CallHandler(name) =>
          (serve(name, true).Ok? ==> outcome == Ok(serve(name, true).value.(cachePrivate := true)))
          && (serve(name, true).Err? ==> outcome == Err(Raised(serve(name, true).error)))
        case DelegateToParent => outcome == PassOn(parentServePreview(mode, true))
        case MissingHandler(name) => outcome == Err(MissingAttribute(name))
    {
      var modeNames := ModeNames(PreviewModes());
      request.isPreview := true;
      if mode in modeNames {
        var name: string;
        if PreviewServeName(mode) in cls.methods {
          name := PreviewServeName(mode);
        } else if ServeName(mode) in cls.methods {
          name := ServeName(mode);
        } else {
          return Err(MissingAttribute(ServeName(mode)));
        }
        var served := serve(name, request.isPreview);
        if served.Err? {
          return Err(Raised(served.error));
        }
        var response := served.value.(cachePrivate := true);
        return Ok(response);
      }
      outcome := PassOn(parentServePreview(mode, request.isPreview));
    }
  }
}
