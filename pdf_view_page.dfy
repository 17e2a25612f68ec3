/** `PdfViewPageMixin` (wagtail_pdf_view/mixins.py): its default ROUTE_CONFIG,
    which serves the page only as PDF, and its template and file-name
    resolvers. `slugify` is Django's and is a parameter of the model. */
module PdfViewPage {
  import opened Results
  import opened Routes
  import opened PyStrings
  import PdfModel

  /** The default table: "pdf" at the page's own URL, "html" disabled. */
  const DefaultRouteConfig: seq<RouteEntry> := [
    RouteEntry("pdf", Some("^$"), []),
    RouteEntry("html", None, [])
  ]

  /** Default of pdf_slugify_document_name. */
  const SlugifyDocumentNameDefault := true

  /** A page class keeping the default table offers the single preview mode
      ("pdf", "pdf preview"), wraps serve_pdf with the pattern "^$" under the
      route name "pdf", and leaves serve_html alone. */
  lemma DefaultRouteConfigCompiles(methods: map<string, Handler>)
    requires ServeName("pdf") in methods
    ensures Compile(DefaultRouteConfig, methods, PreviewName)
      == Ok(Compiled([PreviewMode("pdf", "pdf preview")], methods[ServeName("pdf") := Routed(methods[ServeName("pdf")], "^$", ["pdf"])]))
  {
    var pdf, html := DefaultRouteConfig[0], DefaultRouteConfig[1];
    assert DefaultRouteConfig[..1] == [pdf] && [pdf][..0] == [];
    assert Enabled(pdf) && !Enabled(html);
    assert ModeOf(pdf, PreviewName) == PreviewMode("pdf", "pdf preview");
    assert RouteArgs(pdf) == ["pdf"] && pdf.pattern.value == "^$";
    var first := CompileStep(CompileState([], methods, None), pdf, PreviewName);
    assert first.modes == [PreviewMode("pdf", "pdf preview")];
    assert first.methods == methods[ServeName("pdf") := Routed(methods[ServeName("pdf")], "^$", ["pdf"])];
    assert CompileRun(DefaultRouteConfig[..1], methods, PreviewName) == first;
    assert CompileRun(DefaultRouteConfig, methods, PreviewName) == CompileStep(first, html, PreviewName) == first;
  }

  /** get_template(request, extension): `parent` is what the next
      get_template in the class's method resolution order returns for the
      request (its template name or the exception it raises). An error passes
      through; a name is kept for a missing or empty extension and otherwise
      has every ".html" replaced by "." + extension. */
  function GetTemplate<E>(parent: Result<string, E>, extension: Option<string>): (r: Result<string, E>)
    ensures r.Err? <==> parent.Err?
    ensures r.Err? ==> r == parent
    ensures r.Ok? && (extension.None? || extension.value == "") ==> r.value == parent.value
    ensures r.Ok? && extension.Some? && extension.value != "" ==>
      r.value == Join(Split(parent.value, ".html"), "." + extension.value)
  {
    match parent
    case Err(e) => Err(e)
    case Ok(name) =>
      if extension.Some? && extension.value != "" then
        ReplaceIsJoinOfSplit(name, ".html", "." + extension.value);
        Ok(Replace(name, ".html", "." + extension.value))
      else Ok(name)
  }

  /** With PdfModelMixin next in line, super().get_template(request) passes no
      view provider, so the regular template attribute is read and the admin
      one never is. */
  lemma GetTemplateOverPdfModel(attrs: map<string, string>, modelName: string, names: PdfModel.TemplateAttributes, extension: Option<string>)
    ensures var r := GetTemplate(PdfModel.GetTemplate(attrs, modelName, names, None), extension);
      (r.Ok? <==> names.regular in attrs)
      && (r.Err? ==> r.error.message == PdfModel.NotFoundMessage(modelName, names.regular))
      && (r.Ok? && extension.None? ==> r.value == attrs[names.regular])
  {
  }

  /** A template name ending in ".html", with no earlier ".html" in it, gets
      that extension swapped for the requested one. */
  lemma GetTemplateSwapsExtension<E>(base: string, ext: string)
    requires ext != ""
    requires forall i: nat | i < |base| :: !MatchesAt(base + ".html", i, ".html")
    ensures GetTemplate<E>(Ok(base + ".html"), Some(ext)) == Ok(base + "." + ext)
  {
    ReplaceSuffix(base, ".html", "." + ext);
    assert base + ("." + ext) == base + "." + ext;
  }

  /** An example: "foo.html" with extension "tex" is "foo.tex". */
  lemma GetTemplateExample<E>()
    ensures GetTemplate<E>(Ok("foo.html"), Some("tex")) == Ok("foo.tex")
  {
    var base := "foo";
    assert base + ".html" == "foo.html";
    forall i: nat | i < |base| ensures !MatchesAt(base + ".html", i, ".html") {
      assert (base + ".html")[i] != '.';
    }
    GetTemplateSwapsExtension<E>(base, "tex");
    assert base + "." + "tex" == "foo.tex";
  }

  /** get_pdf_filename: the (slugified, when pdf_slugify_document_name is
      set) page title followed by ".pdf". */
  function PdfFilename(title: string, slugifyName: bool, slugify: string -> string): (name: string)
    ensures |name| >= 4 && name[|name| - 4..] == ".pdf"
    ensures name[..|name| - 4] == if slugifyName then slugify(title) else title
  {
    var stem := if slugifyName then slugify(title) else title;
    stem + ".pdf"
  }

  /** With pdf_slugify_document_name at its default, the file name is the
      slugified title followed by ".pdf". */
  lemma DefaultPdfFilename(title: string, slugify: string -> string)
    ensures PdfFilename(title, SlugifyDocumentNameDefault, slugify) == slugify(title) + ".pdf"
  {
  }
}
