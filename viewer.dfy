/// The pure helpers of the panorama viewer page: which product it shows,
/// where that product's tiles are read from, the HTML escaping of scene
/// names and hotspot texts, and the lookup of a scene by its id.
module Viewer {
  import opened Common
  import opened Text
  import Router

  // ---------------------------------------------------------------------
  // the product shown and its tiles
  // ---------------------------------------------------------------------

  /** The fallback the viewer uses when the router script is absent; it is
      the router's default product too. */
  const VIEWER_DEFAULT := "1a5ab6424adfa1e1"

  /** getProductKey: the router's choice when the router script is loaded;
      otherwise any non-empty parameter, known product or not, and the
      default without one. */
  function GetProductKey(routerLoaded: bool, param: Option<string>): (key: string)
    ensures routerLoaded ==> key in Router.AVAILABLE_PRODUCTS
    ensures !routerLoaded ==> key == (if Router.Truthy(param) then param.value else VIEWER_DEFAULT)
  {
    if routerLoaded then Router.GetCurrentProduct(param)
    else if Router.Truthy(param) then param.value
    else VIEWER_DEFAULT
  }

  /** With or without the router, a page asked for a known product, or for
      none, shows the same product. */
  lemma ProductKeyAgrees(param: Option<string>)
    requires !Router.Truthy(param) || param.value in Router.AVAILABLE_PRODUCTS
    ensures GetProductKey(true, param) == GetProductKey(false, param)
  {
  }

  /** Without the router an unknown product is shown as asked, where the
      router would show the default. */
  lemma ProductKeyUnvalidated(param: Option<string>)
    requires Router.Truthy(param) && param.value !in Router.AVAILABLE_PRODUCTS
    ensures GetProductKey(false, param) == param.value
    ensures GetProductKey(true, param) == Router.DEFAULT_PRODUCT != GetProductKey(false, param)
  {
  }

  /** "product-tiles/<key>": the folder all of a product's images are read
      from. */
  function UrlPrefix(key: string): string {
    "product-tiles/" + key
  }

  /** The tile URL template handed to the image source; {z}, {f}, {y} and
      {x} are filled in by the viewer library. */
  function TileTemplate(key: string): (url: string)
    ensures StartsWith(url, UrlPrefix(key) + "/")
    ensures EndsWith(url, "/tile/{z}/{f}/{y}/{x}.jpg")
    ensures |url| == |UrlPrefix(key)| + |"/tile/{z}/{f}/{y}/{x}.jpg"|
  {
    UrlPrefix(key) + "/tile/{z}/{f}/{y}/{x}.jpg"
  }

  /** The cube-map preview image. */
  function PreviewImage(key: string): (url: string)
    ensures StartsWith(url, UrlPrefix(key) + "/")
    ensures EndsWith(url, "/preview.jpg")
    ensures |url| == |UrlPrefix(key)| + |"/preview.jpg"|
  {
    UrlPrefix(key) + "/preview.jpg"
  }

  /** Two products never share a tile template or a preview: each key reads
      its own folder. */
  lemma TemplatesApart(k1: string, k2: string)
    requires k1 != k2
    ensures TileTemplate(k1) != TileTemplate(k2)
    ensures PreviewImage(k1) != PreviewImage(k2)
  {
    SuffixDecides("product-tiles/", k1, "/tile/{z}/{f}/{y}/{x}.jpg", k2);
    SuffixDecides("product-tiles/", k1, "/preview.jpg", k2);
  }

  /** Between a fixed prefix and a fixed suffix, the middle is determined. */
  lemma SuffixDecides(p: string, k1: string, s: string, k2: string)
    ensures p + k1 + s == p + k2 + s ==> k1 == k2
  {
    if p + k1 + s == p + k2 + s {
      assert |k1| == |k2|;
      forall i | 0 <= i < |k1| ensures k1[i] == k2[i] {
        assert (p + k1 + s)[|p| + i] == k1[i];
        assert (p + k2 + s)[|p| + i] == k2[i];
      }
    }
  }

  // ---------------------------------------------------------------------
  // sanitize
  // ---------------------------------------------------------------------

  /** s.replace(/c/g, rep): every occurrence of the character c replaced. */
  function ReplaceChar(s: string, c: char, rep: string): string {
    if s == [] then [] else (if s[0] == c then rep else [s[0]]) + ReplaceChar(s[1..], c, rep)
  }

  /** sanitize: escape "&" first, then "<", then ">". */
  function Sanitize(s: string): string {
    ReplaceChar(ReplaceChar(ReplaceChar(s, '&', "&amp;"), '<', "&lt;"), '>', "&gt;")
  }

  /** How one character is escaped, all at once. */
  function Escape(c: char): string {
    if c == '&' then "&amp;" else if c == '<' then "&lt;" else if c == '>' then "&gt;" else [c]
  }

  /** The escaping character by character: the reference sanitize is
      compared with. */
  function EscapeEach(s: string): string {
    if s == [] then [] else Escape(s[0]) + EscapeEach(s[1..])
  }

  /** The number of occurrences of c in s. */
  function Count(s: string, c: char): nat {
    if s == [] then 0 else (if s[0] == c then 1 else 0) + Count(s[1..], c)
  }

  lemma {:induction false} ReplaceCharAppend(a: string, b: string, c: char, rep: string)
    ensures ReplaceChar(a + b, c, rep) == ReplaceChar(a, c, rep) + ReplaceChar(b, c, rep)
  {
    if a != [] {
      assert (a + b)[0] == a[0] && (a + b)[1..] == a[1..] + b;
      ReplaceCharAppend(a[1..], b, c, rep);
    } else {
      assert a + b == b;
    }
  }

  lemma {:induction false} EscapeEachAppend(a: string, b: string)
    ensures EscapeEach(a + b) == EscapeEach(a) + EscapeEach(b)
  {
    if a != [] {
      assert (a + b)[0] == a[0] && (a + b)[1..] == a[1..] + b;
      EscapeEachAppend(a[1..], b);
    } else {
      assert a + b == b;
    }
  }

  lemma {:induction false} CountAppend(a: string, b: string, c: char)
    ensures Count(a + b, c) == Count(a, c) + Count(b, c)
  {
    if a != [] {
      assert (a + b)[0] == a[0] && (a + b)[1..] == a[1..] + b;
      CountAppend(a[1..], b, c);
    } else {
      assert a + b == b;
    }
  }

  /** One character goes through the three passes as Escape says. */
  lemma SanitizeChar(c: char)
    ensures Sanitize([c]) == Escape(c)
  {
    if c == '&' {
      assert ReplaceChar([c], '&', "&amp;") == "&amp;";
      assert ReplaceChar("&amp;", '<', "&lt;") == "&amp;";
      assert ReplaceChar("&amp;", '>', "&gt;") == "&amp;";
    } else if c == '<' {
      assert ReplaceChar([c], '&', "&amp;") == [c];
      assert ReplaceChar([c], '<', "&lt;") == "&lt;";
      assert ReplaceChar("&lt;", '>', "&gt;") == "&lt;";
    } else if c == '>' {
      assert ReplaceChar([c], '&', "&amp;") == [c];
      assert ReplaceChar([c], '<', "&lt;") == [c];
      assert ReplaceChar([c], '>', "&gt;") == "&gt;";
    } else {
      assert ReplaceChar([c], '&', "&amp;") == [c];
      assert ReplaceChar([c], '<', "&lt;") == [c];
      assert ReplaceChar([c], '>', "&gt;") == [c];
    }
  }

  lemma SanitizeAppend(a: string, b: string)
    ensures Sanitize(a + b) == Sanitize(a) + Sanitize(b)
  {
    ReplaceCharAppend(a, b, '&', "&amp;");
    var a1, b1 := ReplaceChar(a, '&', "&amp;"), ReplaceChar(b, '&', "&amp;");
    ReplaceCharAppend(a1, b1, '<', "&lt;");
    var a2, b2 := ReplaceChar(a1, '<', "&lt;"), ReplaceChar(b1, '<', "&lt;");
    ReplaceCharAppend(a2, b2, '>', "&gt;");
  }

  /** The three passes in that order escape each character once: since "&"
      goes first, the "&" of "&lt;" and "&gt;" is not escaped again. */
  lemma {:induction false} SanitizeIsEscapeEach(s: string)
    ensures Sanitize(s) == EscapeEach(s)
  {
    if s != [] {
      assert s == [s[0]] + s[1..];
      SanitizeAppend([s[0]], s[1..]);
      SanitizeChar(s[0]);
      SanitizeIsEscapeEach(s[1..]);
    } else {
      assert Sanitize(s) == [];
    }
  }

  lemma {:induction false} EscapeEachNoBrackets(s: string)
    ensures '<' !in EscapeEach(s) && '>' !in EscapeEach(s)
  {
    if s != [] {
      EscapeEachNoBrackets(s[1..]);
      assert '<' !in Escape(s[0]) && '>' !in Escape(s[0]);
    }
  }

  /** The escaped text holds no angle bracket: nothing in it can open or
      close a tag. */
  lemma SanitizeNoBrackets(s: string)
    ensures '<' !in Sanitize(s) && '>' !in Sanitize(s)
  {
    SanitizeIsEscapeEach(s);
    EscapeEachNoBrackets(s);
  }

  lemma {:induction false} EscapeEachLength(s: string)
    ensures |EscapeEach(s)| == |s| + 4 * Count(s, '&') + 3 * Count(s, '<') + 3 * Count(s, '>')
  {
    if s != [] {
      EscapeEachLength(s[1..]);
    }
  }

  /** Each "&" grows by four characters, each "<" and ">" by three; nothing
      else changes length. */
  lemma SanitizeLength(s: string)
    ensures |Sanitize(s)| == |s| + 4 * Count(s, '&') + 3 * Count(s, '<') + 3 * Count(s, '>')
  {
    SanitizeIsEscapeEach(s);
    EscapeEachLength(s);
  }

  /** A character other than the three is copied as it is, at the place the
      escapes before it push it to. */
  lemma SanitizeKeepsOthers(s: string, i: int)
    requires 0 <= i < |s| && s[i] != '&' && s[i] != '<' && s[i] != '>'
    ensures var shift := |Sanitize(s[..i])|;
            shift < |Sanitize(s)| && Sanitize(s)[shift] == s[i]
  {
    assert s == s[..i] + ([s[i]] + s[i + 1..]);
    SanitizeAppend(s[..i], [s[i]] + s[i + 1..]);
    SanitizeAppend([s[i]], s[i + 1..]);
    SanitizeChar(s[i]);
  }

  lemma {:induction false} EscapeEachPlain(s: string)
    requires Count(s, '&') == 0 && Count(s, '<') == 0 && Count(s, '>') == 0
    ensures EscapeEach(s) == s
  {
    if s != [] {
      EscapeEachPlain(s[1..]);
      assert s == [s[0]] + s[1..];
    }
  }

  lemma {:induction false} EscapeEachAmp(s: string)
    requires Count(s, '&') + Count(s, '<') + Count(s, '>') > 0
    ensures Count(EscapeEach(s), '&') > 0
  {
    var e := Escape(s[0]);
    CountAppend(e, EscapeEach(s[1..]), '&');
    if s[0] != '&' && s[0] != '<' && s[0] != '>' {
      EscapeEachAmp(s[1..]);
    } else {
      assert e[0] == '&';
      assert e == [e[0]] + e[1..];
      CountAppend([e[0]], e[1..], '&');
    }
  }

  /** Escaping twice changes the text exactly when it held one of the three
      characters: the second pass escapes the "&" the first one wrote. */
  lemma SanitizeTwice(s: string)
    ensures Sanitize(Sanitize(s)) == Sanitize(s) <==> Count(s, '&') == 0 && Count(s, '<') == 0 && Count(s, '>') == 0
  {
    var once := Sanitize(s);
    SanitizeIsEscapeEach(s);
    if Count(s, '&') == 0 && Count(s, '<') == 0 && Count(s, '>') == 0 {
      EscapeEachPlain(s);
    } else {
      EscapeEachAmp(s);
      SanitizeLength(once);
    }
  }

  /** For instance, "&" escapes to "&amp;", and escaping that again
      changes it once more. */
  lemma AmpersandTwice()
    ensures Sanitize("&") == "&amp;" && Sanitize(Sanitize("&")) != Sanitize("&")
  {
    SanitizeChar('&');
    SanitizeTwice("&");
  }

  // ---------------------------------------------------------------------
  // finding a scene
  // ---------------------------------------------------------------------

  /** A scene of the tour data file; the scene's levels, face size, view
      parameters and hotspots are not modelled. */
  datatype SceneData = SceneData(id: string, name: string)

  /** A scene built by initScenes: its data; the viewer's scene and view
      objects are not modelled. */
  datatype Scene = Scene(data: SceneData)

  /** The tour data: `data` is undefined until a data script has loaded, and
      may lack a `scenes` list. */
  datatype TourData = TourData(scenes: Option<seq<SceneData>>)

  /** findSceneById: the first scene whose data has the id, or null. */
  method FindSceneById(scenes: seq<Scene>, id: string) returns (found: Option<Scene>)
    ensures found.None? <==> forall k :: 0 <= k < |scenes| ==> scenes[k].data.id != id
    ensures found.Some? ==> exists i :: 0 <= i < |scenes| && found.value == scenes[i] && scenes[i].data.id == id
                                       && forall k :: 0 <= k < i ==> scenes[k].data.id != id
  {
    for i := 0 to |scenes|
      invariant forall k :: 0 <= k < i ==> scenes[k].data.id != id
    {
      if scenes[i].data.id == id {
        return Some(scenes[i]);
      }
    }
    return None;
  }

  /** findSceneDataById: null without loaded data or without a scene list,
      otherwise the first scene data with the id, or null. */
  method FindSceneDataById(data: Option<TourData>, id: string) returns (found: Option<SceneData>)
    ensures (data.None? || data.value.scenes.None?) ==> found.None?
    ensures data.Some? && data.value.scenes.Some? ==>
              var list := data.value.scenes.value;
              (found.None? <==> forall k :: 0 <= k < |list| ==> list[k].id != id)
              && (found.Some? ==> exists i :: 0 <= i < |list| && found.value == list[i] && list[i].id == id
                                             && forall k :: 0 <= k < i ==> list[k].id != id)
  {
    if data.None? || data.value.scenes.None? {
      return None;
    }
    var list := data.value.scenes.value;
    for i := 0 to |list|
      invariant forall k :: 0 <= k < i ==> list[k].id != id
    {
      if list[i].id == id {
        return Some(list[i]);
      }
    }
    return None;
  }
}
