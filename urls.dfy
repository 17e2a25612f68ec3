/** The URL attribute assigner of `MultipleViewPageMixin.__init__`
    (wagtail_pdf_view/mixins.py): for every enabled ROUTE_CONFIG entry whose
    `url_<key>` attribute is not set yet, it sets it to the page URL (with a
    trailing "/" ensured) followed by `reverse_subpage` of the route name.
    `reverse_subpage` is a parameter of the model. */
module ViewUrls {
  import opened Results
  import opened Routes

  /** Name of the URL attribute of a view: "url_" + key. */
  function UrlName(key: string): string {
    "url_" + key
  }

  /** The page URL with a trailing "/" ensured: the slash is appended only
      when the URL is non-empty and does not already end with one. */
  function WithTrailingSlash(url: string): (r: string)
    ensures r == "" <==> url == ""
    ensures r != "" ==> r[|r| - 1] == '/'
    ensures url <= r && |r| <= |url| + 1
    ensures url != "" && url[|url| - 1] == '/' ==> r == url
  {
    if url != "" && url[|url| - 1] != '/' then url + "/" else url
  }

  /** The errors that end __init__: the TypeError of `None + str` when the
      page has no URL (`self.url` is None) and the attribute `attribute` has
      to be built, and the AttributeError of a class without ROUTE_CONFIG. */
  datatype UrlError = NoPageUrl(attribute: string) | MissingRouteConfig

  type Attributes = map<string, string>

  /** One iteration of the loop of __init__. */
  function AssignStep(st: Result<Attributes, UrlError>, e: RouteEntry, url: Option<string>, reverse: string -> string): Result<Attributes, UrlError> {
    match st
    case Err(_) => st
    case Ok(attrs) =>
      var attr := UrlName(e.key);
      if !Enabled(e) || attr in attrs then st
      else if url.None? then Err(NoPageUrl(attr))
      else Ok(attrs[attr := WithTrailingSlash(url.value) + reverse(RouteName(e))])
  }

  /** The attributes after the loop has run over `config`, or the error that
      ends __init__. */
  function AssignUrls(config: seq<RouteEntry>, attrs: Attributes, url: Option<string>, reverse: string -> string): (r: Result<Attributes, UrlError>)
    ensures r.Ok? ==> forall attr | attr in attrs :: attr in r.value && r.value[attr] == attrs[attr]
    ensures r.Err? ==> url.None? && r.error.NoPageUrl? && r.error.attribute !in attrs && IsViewUrl(config, r.error.attribute)
    decreases |config|
  {
    if config == [] then Ok(attrs)
    else
      var init := config[..|config| - 1];
      var st := AssignUrls(init, attrs, url, reverse);
      assert st.Err? ==> IsViewUrl(config, st.error.attribute) by {
        if st.Err? {
          var i :| 0 <= i < |init| && Enabled(init[i]) && st.error.attribute == UrlName(init[i].key);
          assert config[i] == init[i];
        }
      }
      AssignStep(st, config[|config| - 1], url, reverse)
  }

  /** The loop of __init__ for a class whose ROUTE_CONFIG may be missing. */
  function AssignClassUrls(config: Option<seq<RouteEntry>>, attrs: Attributes, url: Option<string>, reverse: string -> string): (r: Result<Attributes, UrlError>)
    ensures config.None? <==> r == Err(MissingRouteConfig)
    ensures config.Some? ==> r == AssignUrls(config.value, attrs, url, reverse)
  {
    if config.None? then Err(MissingRouteConfig) else AssignUrls(config.value, attrs, url, reverse)
  }

  /** Some enabled entry of `config` still lacks its URL attribute in `attrs`. */
  predicate NeedsUrl(config: seq<RouteEntry>, attrs: Attributes) {
    exists i :: 0 <= i < |config| && Enabled(config[i]) && UrlName(config[i].key) !in attrs
  }

  /** `attr` is the URL attribute of some enabled entry of `config`. */
  predicate IsViewUrl(config: seq<RouteEntry>, attr: string) {
    exists i :: 0 <= i < |config| && Enabled(config[i]) && attr == UrlName(config[i].key)
  }

  lemma UrlNameInjective(a: string, b: string)
    ensures UrlName(a) == UrlName(b) ==> a == b
  {
    if UrlName(a) == UrlName(b) {
      assert a == UrlName(a)[4..];
      assert b == UrlName(b)[4..];
    }
  }

  /** The assigner fails exactly when the page has no URL and some enabled
      view still needs its attribute. */
  lemma {:induction false} AssignUrlsFailsIff(config: seq<RouteEntry>, attrs: Attributes, url: Option<string>, reverse: string -> string)
    ensures AssignUrls(config, attrs, url, reverse).Err? <==> url.None? && NeedsUrl(config, attrs)
    ensures url.None? ==> AssignUrls(config, attrs, url, reverse).Ok? ==> AssignUrls(config, attrs, url, reverse).value == attrs
    decreases |config|
  {
    if config != [] {
      var n := |config|;
      var init := config[..n - 1];
      AssignUrlsFailsIff(init, attrs, url, reverse);
      assert forall i | 0 <= i < |init| :: init[i] == config[i];
      if url.None? && NeedsUrl(config, attrs) && !NeedsUrl(init, attrs) {
        var i :| 0 <= i < n && Enabled(config[i]) && UrlName(config[i].key) !in attrs;
        assert i == n - 1;
      }
    }
  }

  /** Pre-existing attributes are never overwritten; the only attributes
      added are URL attributes of enabled entries, and all of those are set. */
  lemma {:induction false} AssignUrlsKeys(config: seq<RouteEntry>, attrs: Attributes, url: Option<string>, reverse: string -> string)
    requires AssignUrls(config, attrs, url, reverse).Ok?
    ensures var r := AssignUrls(config, attrs, url, reverse).value;
      forall attr | attr in attrs :: attr in r && r[attr] == attrs[attr]
    ensures var r := AssignUrls(config, attrs, url, reverse).value;
      forall attr :: attr in r <==> attr in attrs || IsViewUrl(config, attr)
    decreases |config|
  {
    if config != [] {
      var n := |config|;
      var init := config[..n - 1];
      AssignUrlsKeys(init, attrs, url, reverse);
      var r := AssignUrls(config, attrs, url, reverse).value;
      forall attr
        ensures attr in r <==> attr in attrs || IsViewUrl(config, attr)
      {
        if IsViewUrl(config, attr) && !IsViewUrl(init, attr) {
          var i :| 0 <= i < n && Enabled(config[i]) && attr == UrlName(config[i].key);
          assert i == n - 1;
        }
        if IsViewUrl(init, attr) {
          var i :| 0 <= i < |init| && Enabled(init[i]) && attr == UrlName(init[i].key);
          assert config[i] == init[i];
        }
      }
    }
  }

  /** The first enabled entry with a given key decides its URL attribute when
      the attribute was not set before: base URL with a trailing slash,
      then the reversed sub-path of the entry's route name. */
  lemma {:induction false} AssignUrlsFirstWins(config: seq<RouteEntry>, attrs: Attributes, url: Option<string>, reverse: string -> string, i: nat)
    requires i < |config| && Enabled(config[i]) && UrlName(config[i].key) !in attrs
    requires forall j | 0 <= j < i :: Enabled(config[j]) ==> config[j].key != config[i].key
    requires AssignUrls(config, attrs, url, reverse).Ok?
    ensures url.Some?
    ensures UrlName(config[i].key) in AssignUrls(config, attrs, url, reverse).value
    ensures AssignUrls(config, attrs, url, reverse).value[UrlName(config[i].key)]
      == WithTrailingSlash(url.value) + reverse(RouteName(config[i]))
    decreases |config|
  {
    var n := |config|;
    var init, last := config[..n - 1], config[n - 1];
    var attr := UrlName(config[i].key);
    var st := AssignUrls(init, attrs, url, reverse);
    assert AssignUrls(config, attrs, url, reverse) == AssignStep(st, last, url, reverse);
    AssignUrlsFailsIff(config, attrs, url, reverse);
    assert url.Some? && st.Ok?;
    if i == n - 1 {
      AssignUrlsKeys(init, attrs, url, reverse);
      if attr in st.value {
        var j :| 0 <= j < |init| && Enabled(init[j]) && attr == UrlName(init[j].key);
        UrlNameInjective(init[j].key, config[i].key);
        assert false;
      }
    } else {
      assert init[i] == config[i];
      assert forall j | 0 <= j < i :: init[j] == config[j];
      AssignUrlsFirstWins(init, attrs, url, reverse, i);
    }
  }

  /** When every enabled view already has its URL attribute, the assigner
      changes nothing. */
  lemma {:induction false} AssignUrlsNoop(config: seq<RouteEntry>, attrs: Attributes, url: Option<string>, reverse: string -> string)
    requires forall i | 0 <= i < |config| :: Enabled(config[i]) ==> UrlName(config[i].key) in attrs
    ensures AssignUrls(config, attrs, url, reverse) == Ok(attrs)
    decreases |config|
  {
    if config != [] {
      var n := |config|;
      var init := config[..n - 1];
      assert forall i | 0 <= i < |init| :: init[i] == config[i];
      AssignUrlsNoop(init, attrs, url, reverse);
    }
  }

  /** Running the assigner again on its own result changes nothing, so two
      computations of the same page's URLs agree. */
  lemma AssignUrlsIdempotent(config: seq<RouteEntry>, attrs: Attributes, url: Option<string>, reverse: string -> string)
    requires AssignUrls(config, attrs, url, reverse).Ok?
    ensures var r := AssignUrls(config, attrs, url, reverse).value;
      AssignUrls(config, r, url, reverse) == Ok(r)
  {
    var r := AssignUrls(config, attrs, url, reverse).value;
    AssignUrlsKeys(config, attrs, url, reverse);
    forall i | 0 <= i < |config| && Enabled(config[i])
      ensures UrlName(config[i].key) in r
    {
      assert IsViewUrl(config, UrlName(config[i].key));
    }
    AssignUrlsNoop(config, r, url, reverse);
  }

  /** Once the assigner has failed, later entries change nothing. */
  lemma {:induction false} AssignUrlsStuck(config: seq<RouteEntry>, attrs: Attributes, url: Option<string>, reverse: string -> string, k: nat)
    requires k <= |config|
    requires AssignUrls(config[..k], attrs, url, reverse).Err?
    ensures AssignUrls(config, attrs, url, reverse) == AssignUrls(config[..k], attrs, url, reverse)
    decreases |config| - k
  {
    if k < |config| {
      var n := |config|;
      assert config[..n - 1][..k] == config[..k];
      AssignUrlsStuck(config[..n - 1], attrs, url, reverse, k);
    } else {
      assert config[..k] == config;
    }
  }
}
