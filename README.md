# wagtail-pdf-view mixins, modelled in Dafny

This project models the logic in `wagtail_pdf_view/mixins.py` of wagtail-pdf-view. That module lets a Wagtail page type offer several renderings (HTML, PDF) under sub-URLs. The model covers four parts:

- **Route compiler** (`MultipleViewPageMixin.__init_subclass__`). When a page class is defined, its `ROUTE_CONFIG` table of `(key, pattern, *extra)` entries becomes two things: the class's `DEFAULT_PREVIEW_MODES`, and its `serve_<key>` methods wrapped by `route_function(fn, pattern, *args)`. An entry with a falsy pattern (`None` or `""`) is skipped. The route name is the first extra value, or the key when there is none. A missing `serve_<key>` raises `AttributeError`. Classes that are not `Page` subclasses are left alone.
- **URL attribute assigner** (`MultipleViewPageMixin.__init__`). For every enabled key whose `url_<key>` attribute is not set yet, the page gets `url_<key>` = page URL (with a trailing `/` ensured) + `reverse_subpage(route name)`.
- **Preview dispatcher** (`serve_preview`, `preview_modes`, `get_preview_name`). The dispatcher always sets `request.is_preview`. A listed mode is served by `serve_preview_<mode>` or else `serve_<mode>`, and the response is marked `private`. Any other mode goes to Wagtail's own `serve_preview`.
- **Template and file-name resolvers** (`PdfModelMixin`, `PdfViewPageMixin`). These choose `admin_template_name` or `template_name`, replace `.html` with `.<extension>` as Python's `str.replace` does, and build `<model_name>.pdf` or `<(slugified) title>.pdf`. The module also fixes `PdfViewPageMixin`'s default table, which serves only the PDF.

Layout, one module per file:

- `results.dfy` (`Results`): `Option` and `Result`.
- `routes.dfy` (`Routes`): route entries, the compiler as a specification function (`CompileRun`, `Compile`), the reference list of preview modes (`PreviewModesOf`) and the lemmas about them.
- `urls.dfy` (`ViewUrls`): the URL assigner as a specification function (`AssignUrls`) and its lemmas.
- `preview.dfy` (`PreviewDispatch`): the dispatch rule and its link to the compiler.
- `pages.dfy` (`Pages`): the stateful side. `PageClass` holds the class attributes that `__init_subclass__` rewrites (`InitSubclass`, a loop proved against `CompileRun`). `Page` holds the instance attributes that `__init__` sets (`AssignViewUrls`, a loop proved against `AssignUrls`) and `ServePreview`. `Request` holds the `is_preview` flag.
- `py_strings.dfy` (`PyStrings`): Python's `str.replace`, proved equal to splitting with `str.split` and joining with `str.join`.
- `pdf_model.dfy` (`PdfModel`) and `pdf_view_page.dfy` (`PdfViewPage`): the resolvers and the default route table.

These framework services are parameters or free values, not models:

- Django's `slugify` and Wagtail's `reverse_subpage` are function parameters.
- The page's serve methods and Wagtail's parent `serve_preview` are function parameters. Each receives the method name (or mode) and the request's `is_preview` flag as it stands at the call, and returns a response or the exception it raises.
- `route_function` is the free constructor `Handler.Routed`.
- The classmethod `get_preview_name` is a parameter of the compiler (`getPreviewName`, a field of `PageClass`), because a class may override it. `Routes.PreviewName` is the mixin's own definition, with `gettext` as the identity.
- `TEMPLATE_ATTRIBUTE` and `ADMIN_TEMPLATE_ATTRIBUTE` are a parameter of `PdfModel.GetTemplate` (`TemplateAttributes`), because a model may override them. `PdfModel.DefaultTemplateAttributes` holds the declared names.
- The `super().get_template(request)` of `PdfViewPageMixin.get_template` is a parameter: its template name or its exception.

Some behaviour follows directly from how the code is written:

- mixins.py:96 (`if value:`) tests truthiness, so a pattern of `""` disables an entry just as `None` does.
- A missing serve method surfaces as the `AttributeError` of `getattr` at mixins.py:106. No dedicated configuration error exists.
- A class without `ROUTE_CONFIG` raises `AttributeError` at mixins.py:94, after mixins.py:92 has already reset `DEFAULT_PREVIEW_MODES` to `[]`. The same lookup at mixins.py:119 makes `__init__` fail.
- mixins.py:298 calls `str.replace`, which replaces every `.html`, not only a trailing one.
- mixins.py:97 appends the preview mode before mixins.py:106 looks up `serve_<key>`. When the lookup fails, the class being created already lists that mode, and class creation then aborts; `CompileRun` keeps this partial state.
- With duplicate keys, the last enabled entry wraps `serve_<key>` outermost, because each `getattr` at mixins.py:106 sees the previous `setattr` at mixins.py:107.
- The first enabled entry decides `url_<key>`, because the `hasattr` test at mixins.py:125 finds the attribute already set for later entries.
- A subclass that disables a key (mixins.py:74-77) inherits its parent's `serve_<key>`, which the parent's class creation has already wrapped. The subclass's loop skips the entry but does not unwrap the method. `Routes.DisabledEntryKeepsInheritedRoute` shows this on the two tables of the `MultipleViewPageMixin` docstring (mixins.py:53-56 and 74-77). Whether Wagtail then still serves that route depends on how `RoutablePageMixin` collects routes, which is not part of this model. This follows from the code at mixins.py:106-107; no Wagtail behaviour is modelled.

## Model

| member | source | states |
|---|---|---|
| `Routes.PreviewName` | wagtail_pdf_view/mixins.py:135-143 | the preview label is the key followed by " preview" |
| `Routes.PreviewModesAppend` | wagtail_pdf_view/mixins.py:94-97 | the list of preview modes of a concatenated table is the concatenation of the lists: modes keep table order |
| `Routes.PreviewModesMembers` | wagtail_pdf_view/mixins.py:94-97 | every enabled entry contributes its `(key, get_preview_name(key))` mode, and every mode comes from an enabled entry |
| `Routes.DisableEntry` | wagtail_pdf_view/mixins.py:74-77 | redeclaring one entry with a `None` pattern removes exactly that entry's preview mode and keeps the others in order |
| `Routes.CompileModes` | wagtail_pdf_view/mixins.py:92-97 | after a successful class creation DEFAULT_PREVIEW_MODES is exactly one mode per enabled entry, in table order |
| `Routes.RouteArgs` | wagtail_pdf_view/mixins.py:102-103 | the route arguments are the extra values when there are any, otherwise exactly `[key]`, so the route name is the first extra value or the key |
| `Routes.CompileRun` | wagtail_pdf_view/mixins.py:92-107 | the loop adds and removes no class attribute, appends at most one preview mode per entry, and reports as missing only a name the class does not have |
| `Routes.Compile` | wagtail_pdf_view/mixins.py:92-107 | class creation succeeds exactly when every enabled key has its `serve_<key>`, then with the reference preview modes and the same attribute names; a failure names an attribute the class lacks |
| `Routes.CompileRunOkIff` | wagtail_pdf_view/mixins.py:99-107 | the loop ends without a missing attribute if and only if every enabled key has its `serve_<key>` method |
| `Routes.CompileErrFirst` | wagtail_pdf_view/mixins.py:94-106 | the AttributeError names the `serve_<key>` of the first enabled entry whose method is missing |
| `Routes.CompileStuck` | wagtail_pdf_view/mixins.py:94-107 | after the lookup fails no later entry changes the class |
| `Routes.CompileFrame` | wagtail_pdf_view/mixins.py:99-107 | compilation adds no attribute, and every attribute that no enabled entry binds keeps its value |
| `Routes.CompileBindsLast` | wagtail_pdf_view/mixins.py:99-107 | the last enabled entry for a key is the outermost route wrapper of `serve_<key>`, with that entry's pattern and route arguments, whose first element is the first extra value or else the key |
| `Routes.CompileBindsUnique` | wagtail_pdf_view/mixins.py:99-107 | for a key used by one enabled entry, `serve_<key>` becomes the class's own method wrapped exactly once with that entry's pattern and arguments |
| `Routes.DocumentedExampleModes` | wagtail_pdf_view/mixins.py:53-65 | the table in the `MultipleViewPageMixin` docstring yields the modes ("html", "html preview") and ("pdf", "pdf preview") |
| `Routes.DisabledEntryKeepsInheritedRoute` | wagtail_pdf_view/mixins.py:70-77 | a subclass with ("pdf", "^$"), ("html", None) under a parent with ("html", "^$"), ("pdf", "^pdf/$") lists only the "pdf" preview mode, wraps the inherited `serve_pdf` a second time with "^$", and keeps the parent's routed `serve_html` |
| `Pages.PageClass.InitSubclass` | wagtail_pdf_view/mixins.py:80-107 | a non-Page class is untouched; a Page class ends in the state `CompileClass` gives, fails exactly when `ROUTE_CONFIG` or a serve method is missing, and on success lists exactly the reference preview modes built with the class's `get_preview_name` |
| `ViewUrls.WithTrailingSlash` | wagtail_pdf_view/mixins.py:129-131 | the base URL is empty only if the page URL is, otherwise ends in "/"; it extends the page URL by at most one character, and a URL already ending in "/" is kept |
| `ViewUrls.AssignUrls` | wagtail_pdf_view/mixins.py:119-133 | every attribute the page had keeps its value; a failure happens only without a page URL, and names a view URL attribute the page lacked |
| `ViewUrls.AssignClassUrls` | wagtail_pdf_view/mixins.py:119 | a class without `ROUTE_CONFIG` fails with AttributeError, and any other class gets the result of the loop |
| `ViewUrls.AssignUrlsFailsIff` | wagtail_pdf_view/mixins.py:125-133 | `__init__` raises the TypeError of `None + str` exactly when the page has no URL and some enabled view still lacks its attribute; without a URL nothing is written |
| `ViewUrls.AssignUrlsKeys` | wagtail_pdf_view/mixins.py:119-133 | pre-existing attributes keep their values; the attributes afterwards are the old ones plus `url_<key>` for every enabled key, and none for a disabled key |
| `ViewUrls.AssignUrlsFirstWins` | wagtail_pdf_view/mixins.py:119-133 | an unset `url_<key>` becomes base URL with trailing slash followed by `reverse_subpage` of the first enabled entry's route name |
| `ViewUrls.AssignUrlsNoop` | wagtail_pdf_view/mixins.py:125 | when every enabled view already has its attribute nothing changes |
| `ViewUrls.AssignUrlsIdempotent` | wagtail_pdf_view/mixins.py:119-133 | running the assigner on its own result changes nothing, so repeated computation of a page's URLs agrees |
| `ViewUrls.AssignUrlsStuck` | wagtail_pdf_view/mixins.py:119-133 | after the TypeError no later entry changes the attributes |
| `Pages.Page.AssignViewUrls` | wagtail_pdf_view/mixins.py:110-133 | the loop leaves exactly the attributes `AssignClassUrls` gives, or reports its error (missing `ROUTE_CONFIG` or no page URL) and leaves the attributes as they were |
| `Pages.Page.PreviewModesCompiled` | wagtail_pdf_view/mixins.py:145-154 | `Page.PreviewModes` is the class's `DEFAULT_PREVIEW_MODES`; on a class whose creation succeeded it contains the mode of every enabled entry and nothing else |
| `PreviewDispatch.ModeNames` | wagtail_pdf_view/mixins.py:165 | a name is among the mode names exactly when some preview mode has it as key |
| `PreviewDispatch.DispatchPreview` | wagtail_pdf_view/mixins.py:165-182 | a mode goes to the parent exactly when it is not among the preview-mode keys; otherwise `serve_preview_<mode>` is preferred, `serve_<mode>` is the fallback, and the error arises exactly when both are missing and names `serve_<mode>` |
| `PreviewDispatch.CompiledPreviewServes` | wagtail_pdf_view/mixins.py:165-176 | on a successfully compiled class serve_preview never raises AttributeError, and it serves a mode itself exactly when the mode is an enabled key |
| `Pages.Page.ServePreview` | wagtail_pdf_view/mixins.py:145-182 | `is_preview` is set on every path and seen by the handler; a served mode's response is the handler's with the private flag set; other modes get the parent's response unchanged; an exception from the handler or the parent is passed on unchanged, without the private flag and without falling back from `serve_preview_<mode>` to `serve_<mode>` |
| `PyStrings.Replace` | wagtail_pdf_view/mixins.py:298 | replacing ".html" by itself changes nothing, and a replacement as long as the pattern keeps the length |
| `PyStrings.SplitJoin` | wagtail_pdf_view/mixins.py:298 | splitting a string at a separator and joining with it again is the identity |
| `PyStrings.ReplaceIsJoinOfSplit` | wagtail_pdf_view/mixins.py:298 | `str.replace` equals splitting at the pattern and joining with the replacement |
| `PyStrings.SplitHeadPrefix` | wagtail_pdf_view/mixins.py:298 | the text before the first separator is a prefix of the string |
| `PyStrings.SplitPiecesFree` | wagtail_pdf_view/mixins.py:298 | no text left between the separators contains the separator: every occurrence is replaced |
| `PyStrings.ReplaceAbsent` | wagtail_pdf_view/mixins.py:298 | a name without ".html" is returned unchanged |
| `PyStrings.ReplaceSuffix` | wagtail_pdf_view/mixins.py:298 | a name whose only occurrence is its suffix has exactly that suffix replaced |
| `PdfModel.GetTemplate` | wagtail_pdf_view/mixins.py:186-205 | the class's admin template attribute is used only with an AdminViewMixin provider, its regular one otherwise; the result is that attribute's value, or an AttributeError naming the model and the missing attribute exactly when it is absent |
| `PdfModel.DefaultTemplateAttributesExample` | wagtail_pdf_view/mixins.py:186-198 | with the declared names, `template_name` serves a non-admin provider and is not consulted for an admin one, and `admin_template_name` is not consulted for a non-admin one |
| `PdfModel.GetTemplateReadsOneAttribute` | wagtail_pdf_view/mixins.py:195-201 | the answer depends only on the one attribute the provider selects |
| `PdfModel.PdfFilename` | wagtail_pdf_view/mixins.py:212-219 | the file name ends in ".pdf" and what precedes it is the model name |
| `PdfViewPage.DefaultRouteConfigCompiles` | wagtail_pdf_view/mixins.py:251-255 | the default table gives the single preview mode ("pdf", "pdf preview") and wraps `serve_pdf` with "^$" under route name "pdf", leaving every other attribute alone |
| `PdfViewPage.GetTemplate` | wagtail_pdf_view/mixins.py:288-300 | for any next `get_template` in line, an error passes through unchanged; a name is returned unchanged for a missing or empty extension, and otherwise with every ".html" replaced by "." + extension |
| `PdfViewPage.GetTemplateOverPdfModel` | wagtail_pdf_view/mixins.py:296 | when `PdfModelMixin.get_template` is next in line, no view provider is passed, so the result fails exactly when the regular template attribute is absent and never reads the admin one |
| `PdfViewPage.GetTemplateSwapsExtension` | wagtail_pdf_view/mixins.py:297-298 | a template `<base>.html` with no earlier ".html" becomes `<base>.<extension>` |
| `PdfViewPage.GetTemplateExample` | wagtail_pdf_view/mixins.py:292-298 | "foo.html" with extension "tex" gives "foo.tex" |
| `PdfViewPage.PdfFilename` | wagtail_pdf_view/mixins.py:273-285 | the file name ends in ".pdf" and what precedes it is the slugified title when `pdf_slugify_document_name` is set, the title otherwise |
| `PdfViewPage.DefaultPdfFilename` | wagtail_pdf_view/mixins.py:263-285 | with `pdf_slugify_document_name` at its default the file name is the slugified title followed by ".pdf" |

## Left out

- Choosing the default PDF provider by trying imports, and the warning printed when neither back-end is installed (lines 23-40): they depend on the installed packages and write to standard output.
- The `DEFAULT_PDF_VIEW_PROVIDER` settings lookup (line 260): it reads process configuration.
- `serve_pdf`, `serve_html`, `get_pdf_view` and `make_preview_request` (lines 266-334): they only call the external view classes, Wagtail's `serve`, `add_never_cache_headers` and Wagtail's preview request factory.
- `get_context` (line 189) returns an empty dictionary and is not modelled.
- The `ATTACHMENT_VARIABLE` constants (lines 209, 258) are read only by the view classes, which are not part of this model.
- The internals of `route_function`, `reverse_subpage`, `slugify` and `gettext` are not modelled. In particular, a `NoReverseMatch` raised by `reverse_subpage` is not modelled.
- How `patch_cache_control` writes the `private` directive (section 5.2.2.7 of RFC 9111) is not modelled. The response carries only a boolean flag.
- Python class creation itself (`setattr`/`getattr` on classes and instances) is modelled as maps. The method names of a class are the keys of `PageClass.methods`. Everything `hasattr` finds on a page, instance or class, is `Page.attrs`.
- Pages.Page.ServePreview: looks serve methods up among the class's attributes (`PageClass.methods`) only. A `serve_<mode>` or `serve_preview_<mode>` set on the instance alone, which `getattr(self, ...)` would also find, is not seen.
- The method resolution order is not modelled. `PdfViewPage.GetTemplate` takes the next `get_template`'s outcome as a parameter, and `PdfViewPage.GetTemplateOverPdfModel` states the case where that is `PdfModelMixin.get_template`. Wagtail's own `Page.get_template` is not part of this model.
- A `ROUTE_CONFIG` entry with fewer than two elements, which would make the tuple unpacking raise `ValueError`, cannot be written in the model: every `RouteEntry` has a key and a pattern.
- Keys and extra route arguments are strings, so `str(key)` in `get_preview_name` is the identity.
- `PdfModelMixin.get_template` receives whether the provider is an `AdminViewMixin` instance rather than the provider object.
- Concurrent calls of `__init__` on one shared instance are not modelled. `ViewUrls.AssignUrlsIdempotent` shows that a second run computes nothing new.
