/// The viewer's router: it decides, from the page's path and its `product`
/// query parameter, which product's scene data to load, and loads it by
/// putting one script element into the page head. The page is modelled by
/// the few parts of it the router touches: the address it navigates to,
/// the stored current product, the script elements of the head, the
/// product selector and the data-loaded events.
module Router {
  import opened Common
  import opened Text

  /** availableProducts, in the order of the folder tree. */
  const AVAILABLE_PRODUCTS: seq<string> := [
    "1a5ab6424adfa1e1",
    "0907ced043a892f4", "116d8fe1d94b004f",
    "2d9dfc066215f1d0", "961fab550347f6fa",
    "0013bf73ebe076f7", "00334ac8f21d1b5c",
    "0006e253c720cf00", "000a87de36f83cca",
    "04172c95a916ac66", "05d0fc5832284cff",
    "0016314bd22c88bf", "0020ca9e6b6b5d9d",
    "000565a39fc5c236", "0027992aa5064f2d",
    "12708b97708d4808", "19447476b3764967",
    "091ac331c6f2238d", "1003664e21e92652"
  ]

  /** availableProducts[0], the product shown when nothing else is asked for. */
  const DEFAULT_PRODUCT: string := AVAILABLE_PRODUCTS[0]

  const DATA_SCRIPT_ID := "product-data-script"

  /** `productParam && ...`: a missing parameter (null) and an empty one
      are both false. */
  predicate Truthy(param: Option<string>) {
    param.Some? && param.value != ""
  }

  /** path.replace(/^\/|\/$/g, ''): one leading slash and one trailing slash
      go, nothing else; both may be the same slash of the path "/". */
  function CleanPath(path: string): (clean: string)
    ensures StartsWith(path, "/") ==> |clean| + 1 <= |path|
    ensures |path| - 2 <= |clean| <= |path|
    ensures forall i :: 0 <= i < |clean| ==> clean[i] == path[i + (if StartsWith(path, "/") then 1 else 0)]
    ensures EndsWith(path, "/") && |path| >= 2 ==> |clean| == |path| - (if StartsWith(path, "/") then 2 else 1)
    ensures !StartsWith(path, "/") && !EndsWith(path, "/") ==> clean == path
  {
    var rest := if path != [] && path[0] == '/' then path[1..] else path;
    if rest != [] && rest[|rest| - 1] == '/' then rest[..|rest| - 1] else rest
  }

  /** What initRouter decides to do with the page. */
  datatype Route =
    | Redirect(url: string)   // the path names a product: go to "/?product=<key>"
    | Show(key: string)       // store the product, load its data, select it
    | ShowNothing             // an unknown product was asked for

  /** The branch initRouter takes for a path and a query parameter. */
  function ChooseRoute(path: string, param: Option<string>): (r: Route)
    ensures r.Redirect? <==> CleanPath(path) in AVAILABLE_PRODUCTS
    ensures r.Redirect? ==> r.url == "/?product=" + CleanPath(path)
    ensures r.Show? ==> r.key in AVAILABLE_PRODUCTS
    ensures !r.Redirect? ==> (r.Show? && r.key != DEFAULT_PRODUCT <==> Truthy(param) && param.value in AVAILABLE_PRODUCTS && param.value != DEFAULT_PRODUCT)
    ensures r.ShowNothing? <==> CleanPath(path) !in AVAILABLE_PRODUCTS && Truthy(param) && param.value !in AVAILABLE_PRODUCTS
  {
    var clean := CleanPath(path);
    if clean in AVAILABLE_PRODUCTS then Redirect("/?product=" + clean)
    else if Truthy(param) && param.value in AVAILABLE_PRODUCTS then Show(param.value)
    else if !Truthy(param) then Show(DEFAULT_PRODUCT)
    else ShowNothing
  }

  /** getCurrentProduct: the query parameter when it names a known product,
      the default otherwise. */
  function GetCurrentProduct(param: Option<string>): (key: string)
    ensures key in AVAILABLE_PRODUCTS
    ensures key == (if Truthy(param) && param.value in AVAILABLE_PRODUCTS then param.value else DEFAULT_PRODUCT)
  {
    if Truthy(param) && param.value in AVAILABLE_PRODUCTS then param.value else AVAILABLE_PRODUCTS[0]
  }

  /** Whenever initRouter shows a product, it is the one getCurrentProduct
      names for the same parameter; with an unknown product it shows
      nothing although getCurrentProduct would still name the default. */
  lemma RouteAgreesWithCurrentProduct(path: string, param: Option<string>)
    ensures ChooseRoute(path, param).Show? ==> ChooseRoute(path, param).key == GetCurrentProduct(param)
    ensures ChooseRoute(path, param).ShowNothing? ==> GetCurrentProduct(param) == DEFAULT_PRODUCT && GetCurrentProduct(param) != param.value
  {
  }

  /** A script element of the page head. */
  datatype Script = Script(id: string, src: string)

  /** The data script of a product. */
  function DataScript(key: string): (s: Script)
    ensures s.id == DATA_SCRIPT_ID && EndsWith(s.src, key + ".js")
  {
    assert "data/" + key + ".js" == "data/" + (key + ".js");
    Script(DATA_SCRIPT_ID, "data/" + key + ".js")
  }

  /** The number of head elements carrying the data-script id. */
  function DataScripts(head: seq<Script>): nat {
    if head == [] then 0 else (if head[0].id == DATA_SCRIPT_ID then 1 else 0) + DataScripts(head[1..])
  }

  lemma {:induction false} DataScriptsAppend(a: seq<Script>, b: seq<Script>)
    ensures DataScripts(a + b) == DataScripts(a) + DataScripts(b)
  {
    if a != [] {
      assert (a + b)[1..] == a[1..] + b;
      DataScriptsAppend(a[1..], b);
    } else {
      assert a + b == b;
    }
  }

  /** getElementById: the index of the first element with the id, if any. */
  function FirstWithId(head: seq<Script>, id: string): (i: Option<nat>)
    ensures i.None? <==> forall k :: 0 <= k < |head| ==> head[k].id != id
    ensures i.Some? ==> i.value < |head| && head[i.value].id == id
                        && forall k :: 0 <= k < i.value ==> head[k].id != id
  {
    if head == [] then None
    else if head[0].id == id then Some(0)
    else
      var rest := FirstWithId(head[1..], id);
      assert forall k :: 1 <= k < |head| ==> head[k] == head[1..][k - 1];
      if rest.None? then None else Some(rest.value + 1)
  }

  /** The head after removing the element at index i. */
  function RemoveAt(head: seq<Script>, i: nat): seq<Script>
    requires i < |head|
  {
    head[..i] + head[i + 1..]
  }

  /** With no data script, the head holds none; after the one at i is
      removed, one fewer. */
  lemma {:induction false} DataScriptsRemove(head: seq<Script>, i: nat)
    requires i < |head| && head[i].id == DATA_SCRIPT_ID
    ensures DataScripts(RemoveAt(head, i)) + 1 == DataScripts(head)
  {
    assert head == head[..i] + ([head[i]] + head[i + 1..]);
    DataScriptsAppend(head[..i], [head[i]] + head[i + 1..]);
    DataScriptsAppend([head[i]], head[i + 1..]);
    DataScriptsAppend(head[..i], head[i + 1..]);
  }

  lemma {:induction false} DataScriptsNone(head: seq<Script>)
    requires forall k :: 0 <= k < |head| ==> head[k].id != DATA_SCRIPT_ID
    ensures DataScripts(head) == 0
  {
    if head != [] {
      assert forall k :: 0 <= k < |head| - 1 ==> head[1..][k] == head[k + 1];
      DataScriptsNone(head[1..]);
    }
  }

  /** The keys whose data load: the outcome of each script's onload or
      onerror, fixed for one page view. */
  type Loads = string -> bool

  /** The browser page as far as the router reads and changes it. */
  class Page {
    var href: string                 // window.location.href as last assigned
    var stored: Option<string>       // localStorage 'currentProduct'
    var head: seq<Script>            // script elements of document.head
    var selector: Option<string>     // the product selector's value; None without one
    var wired: bool                  // the selector's change handler is installed
    var loaded: seq<string>          // keys of the productDataLoaded events, in order

    /** A page as loaded holds at most one data script. */
    constructor (href0: string, stored0: Option<string>, head0: seq<Script>, selector0: Option<string>)
      requires DataScripts(head0) <= 1
      ensures Valid()
      ensures href == href0 && stored == stored0 && head == head0 && selector == selector0
      ensures !wired && loaded == []
    {
      href := href0;
      stored := stored0;
      head := head0;
      selector := selector0;
      wired := false;
      loaded := [];
    }

    /** The page holds at most one data script. */
    predicate Valid()
      reads this
    {
      DataScripts(head) <= 1
    }

    /** Remove any existing data script, append the one for key, and run
        its onload handler when it loads. */
    method AttachDataScript(key: string, loads: Loads)
      requires Valid()
      modifies this
      ensures Valid() && DataScripts(head) == 1
      ensures head[|head| - 1] == DataScript(key)
      ensures (exists i :: 0 <= i < |old(head)| && old(head)[i].id == DATA_SCRIPT_ID && head == RemoveAt(old(head), i) + [DataScript(key)])
              || (DataScripts(old(head)) == 0 && head == old(head) + [DataScript(key)])
      ensures loaded == old(loaded) + (if loads(key) then [key] else [])
      ensures href == old(href) && stored == old(stored) && selector == old(selector) && wired == old(wired)
    {
      var existing := FirstWithId(head, DATA_SCRIPT_ID);
      if existing.Some? {
        DataScriptsRemove(head, existing.value);
        head := RemoveAt(head, existing.value);
      } else {
        DataScriptsNone(head);
      }
      DataScriptsAppend(head, [DataScript(key)]);
      head := head + [DataScript(key)];
      if loads(key) {
        loaded := loaded + [key];
      }
    }

    /** loadProductData: when the product's data fails to load, the default
        is loaded instead, once; a failing default is not retried. */
    method LoadProductData(key: string, loads: Loads) returns (attempts: seq<string>)
      requires Valid()
      modifies this
      ensures Valid() && DataScripts(head) == 1
      ensures attempts == if !loads(key) && key != DEFAULT_PRODUCT then [key, DEFAULT_PRODUCT] else [key]
      ensures head[|head| - 1] == DataScript(attempts[|attempts| - 1])
      ensures head[|head| - 1] == DataScript(if loads(key) || key == DEFAULT_PRODUCT then key else DEFAULT_PRODUCT)
      ensures loaded == old(loaded) + (if loads(key) then [key] else if key != DEFAULT_PRODUCT && loads(DEFAULT_PRODUCT) then [DEFAULT_PRODUCT] else [])
      ensures href == old(href) && stored == old(stored) && selector == old(selector) && wired == old(wired)
    {
      AttachDataScript(key, loads);
      attempts := [key];
      if !loads(key) && key != AVAILABLE_PRODUCTS[0] {
        AttachDataScript(AVAILABLE_PRODUCTS[0], loads);
        attempts := attempts + [AVAILABLE_PRODUCTS[0]];
      }
    }

    /** updateProductSelector: only a page with a selector changes. */
    method UpdateProductSelector(key: string)
      modifies this
      ensures selector == if old(selector).Some? then Some(key) else None
      ensures href == old(href) && stored == old(stored) && head == old(head) && wired == old(wired) && loaded == old(loaded)
    {
      if selector.Some? {
        selector := Some(key);
      }
    }

    /** initRouter, for the page's path and query parameter. */
    method InitRouter(path: string, param: Option<string>, loads: Loads)
      requires Valid()
      modifies this
      ensures Valid()
      ensures var route := ChooseRoute(path, param);
              match route
              case Redirect(url) =>
                href == url && stored == old(stored) && head == old(head) && selector == old(selector)
                && wired == old(wired) && loaded == old(loaded)
              case Show(key) =>
                href == old(href) && stored == Some(key) && DataScripts(head) == 1
                && head[|head| - 1] == DataScript(if loads(key) || key == DEFAULT_PRODUCT then key else DEFAULT_PRODUCT)
                && selector == (if old(selector).Some? then Some(key) else None)
                && wired == (old(wired) || old(selector).Some?)
                && loaded == old(loaded) + (if loads(key) then [key]
                                            else if key != DEFAULT_PRODUCT && loads(DEFAULT_PRODUCT) then [DEFAULT_PRODUCT]
                                            else [])
              case ShowNothing =>
                href == old(href) && stored == old(stored) && head == old(head) && selector == old(selector)
                && loaded == old(loaded) && wired == (old(wired) || old(selector).Some?)
    {
      // the branches of initRouter, as ChooseRoute tells them apart
      match ChooseRoute(path, param) {
        case Redirect(url) =>
          href := url;
          return;
        case Show(key) =>
          stored := Some(key);
          var _ := LoadProductData(key, loads);
          UpdateProductSelector(key);
        case ShowNothing =>
      }
      // setupProductSelector
      if selector.Some? {
        wired := true;
      }
    }
  }
}
