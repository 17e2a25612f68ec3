/** `PdfModelMixin` (wagtail_pdf_view/mixins.py): the template a model is
    rendered with and the file name of the PDF produced from it. The model's
    attributes are a map from attribute name to string value. */
module PdfModel {
  import opened Results

  /** The names of the template attributes: TEMPLATE_ATTRIBUTE and
      ADMIN_TEMPLATE_ATTRIBUTE, which a model class may override. */
  datatype TemplateAttributes = TemplateAttributes(regular: string, admin: string)

  /** The names PdfModelMixin declares. */
  const DefaultTemplateAttributes := TemplateAttributes("template_name", "admin_template_name")

  /** The view provider handed to get_template, when there is one: whether it
      is an instance of AdminViewMixin. */
  datatype ViewProvider = ViewProvider(isAdminView: bool)

  predicate IsAdminProvider(provider: Option<ViewProvider>) {
    provider.Some? && provider.value.isAdminView
  }

  /** The AttributeError raised when the chosen template attribute is missing. */
  datatype TemplateError = TemplateAttributeNotFound(message: string)

  function NotFoundMessage(modelName: string, attr: string): string {
    "Template attribute not found for model " + modelName + ". "
    + "Try to add " + attr + "='path/to/your/template_file' to " + modelName
  }

  /** The attribute get_template reads: the admin one for an admin view
      provider, the regular one otherwise. */
  function TemplateAttributeFor(names: TemplateAttributes, provider: Option<ViewProvider>): string {
    if IsAdminProvider(provider) then names.admin else names.regular
  }

  /** get_template: the admin template for an admin view provider, the
      regular template otherwise, or an error naming the missing attribute. */
  function GetTemplate(attrs: map<string, string>, modelName: string, names: TemplateAttributes, provider: Option<ViewProvider>): (r: Result<string, TemplateError>)
    ensures IsAdminProvider(provider) ==> (r.Ok? <==> names.admin in attrs)
    ensures IsAdminProvider(provider) && r.Ok? ==> r.value == attrs[names.admin]
    ensures !IsAdminProvider(provider) ==> (r.Ok? <==> names.regular in attrs)
    ensures !IsAdminProvider(provider) && r.Ok? ==> r.value == attrs[names.regular]
    ensures r.Err? ==> r.error.message == NotFoundMessage(modelName, if IsAdminProvider(provider) then names.admin else names.regular)
  {
    var attr := TemplateAttributeFor(names, provider);
    if attr in attrs then Ok(attrs[attr]) else Err(TemplateAttributeNotFound(NotFoundMessage(modelName, attr)))
  }

  /** Two models that agree on the attribute the provider selects get the
      same answer: a non-admin provider never looks at the admin template
      attribute, and an admin provider never at the regular one. */
  lemma GetTemplateReadsOneAttribute(a: map<string, string>, b: map<string, string>, modelName: string, names: TemplateAttributes, provider: Option<ViewProvider>)
    requires var attr := TemplateAttributeFor(names, provider);
      (attr in a <==> attr in b) && (attr in a ==> a[attr] == b[attr])
    ensures GetTemplate(a, modelName, names, provider) == GetTemplate(b, modelName, names, provider)
  {
  }

  /** With the declared names, a model with only `template_name` set has no
      admin template, and one with only `admin_template_name` set has no
      regular template. */
  lemma DefaultTemplateAttributesExample(name: string, modelName: string)
    ensures GetTemplate(map["template_name" := name], modelName, DefaultTemplateAttributes, None) == Ok(name)
    ensures GetTemplate(map["template_name" := name], modelName, DefaultTemplateAttributes, Some(ViewProvider(true)))
      == Err(TemplateAttributeNotFound(NotFoundMessage(modelName, "admin_template_name")))
    ensures GetTemplate(map["admin_template_name" := name], modelName, DefaultTemplateAttributes, Some(ViewProvider(false))).Err?
  {
  }

  /** get_pdf_filename: the model name followed by ".pdf". */
  function PdfFilename(modelName: string): (name: string)
    ensures |name| == |modelName| + 4 && name[|name| - 4..] == ".pdf"
    ensures name[..|name| - 4] == modelName
  {
    modelName + ".pdf"
  }
}
