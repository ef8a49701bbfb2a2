/// The script that retries the keys whose CDN path could not be found: each
/// pass reads the keys left in the error file, visits each key's tour page
/// up to MAX_RETRY times, and for a key whose CDN path turns up logs
/// "key,path" in the mapping file and drops the key from the error file. It
/// passes again until the error file is gone or holds no key.
module RetryErrorKeys {
  import opened Common
  import opened Text
  import opened LineFiles

  const ERROR_FILE := "error_fetch_image_key.txt"
  const OUTPUT_FILE := "product-mapping-image-key.txt"
  const MAX_RETRY := 3

  /** What the visits of one tour page captured, visit by visit: the CDN
      path of the first request matching the CDN pattern, or nothing. Visits
      beyond the listed ones capture nothing. */
  type Captures = seq<Option<string>>

  /** The browser as one pass sees it: the captures for every key. */
  type Browser = string -> Captures

  function CaptureAt(caps: Captures, i: nat): (c: Option<string>)
    ensures i >= |caps| ==> c.None?
  {
    if i < |caps| then caps[i] else None
  }

  /** The path captured by the first of visits k .. MAX_RETRY-1 that
      captured one. */
  function FirstCapture(caps: Captures, k: nat): Option<string>
    decreases MAX_RETRY - k
  {
    if k >= MAX_RETRY then None
    else if CaptureAt(caps, k).Some? then CaptureAt(caps, k)
    else FirstCapture(caps, k + 1)
  }

  /** The visit loop gives up exactly when none of its MAX_RETRY visits
      captured a path, and otherwise reports the earliest one. */
  lemma {:induction false} FirstCaptureMeaning(caps: Captures, k: nat)
    ensures FirstCapture(caps, k).None? <==> forall j :: k <= j < MAX_RETRY ==> CaptureAt(caps, j).None?
    ensures FirstCapture(caps, k).Some? ==>
              exists j :: k <= j < MAX_RETRY && CaptureAt(caps, j) == FirstCapture(caps, k)
                && forall i :: k <= i < j ==> CaptureAt(caps, i).None?
    decreases MAX_RETRY - k
  {
    if k < MAX_RETRY && CaptureAt(caps, k).None? {
      FirstCaptureMeaning(caps, k + 1);
    }
  }

  /** The line logged for a key whose CDN path was found. */
  function MappingLine(key: string, cdnPath: string): string {
    key + "," + cdnPath + "\n"
  }

  /** What handling one key appends to the mapping file. */
  function FoundLine(caps: Captures, key: string): string {
    match FirstCapture(caps, 0)
    case None => ""
    case Some(cdnPath) => MappingLine(key, cdnPath)
  }

  /** What handling one key does to the text files. */
  function HandleEffect(text: map<string, string>, caps: Captures, key: string): map<string, string> {
    match FirstCapture(caps, 0)
    case None => text
    case Some(cdnPath) => DropFromFile(AppendText(text, OUTPUT_FILE, MappingLine(key, cdnPath)), ERROR_FILE, key)
  }

  lemma FileNamesDistinct()
    ensures ERROR_FILE != OUTPUT_FILE
  {
    assert |ERROR_FILE| != |OUTPUT_FILE|;
  }

  /** A key that is found gets its mapping line appended and leaves the
      error file, whose other keys stay; a key that is not found changes
      nothing. No other file is touched, and the error file neither appears
      nor goes. */
  lemma HandleEffectMeaning(text: map<string, string>, caps: Captures, key: string, x: string)
    ensures FirstCapture(caps, 0).None? ==> HandleEffect(text, caps, key) == text
    ensures (ERROR_FILE in HandleEffect(text, caps, key)) == (ERROR_FILE in text)
    ensures ERROR_FILE in text ==>
              (x in ReadStripped(HandleEffect(text, caps, key)[ERROR_FILE]) <==>
                 x in ReadStripped(text[ERROR_FILE]) && !(x == key && FirstCapture(caps, 0).Some?))
    ensures forall p :: p != OUTPUT_FILE && p != ERROR_FILE ==>
              (p in HandleEffect(text, caps, key) <==> p in text)
              && (p in text ==> HandleEffect(text, caps, key)[p] == text[p])
  {
    FileNamesDistinct();
    if FirstCapture(caps, 0).Some? && ERROR_FILE in text {
      var after := AppendText(text, OUTPUT_FILE, MappingLine(key, FirstCapture(caps, 0).value));
      assert after[ERROR_FILE] == text[ERROR_FILE];
      DropFromTextKeys(text[ERROR_FILE], key, x);
    }
  }

  /** Handling a key appends its mapping line to the mapping file when it is
      found, and nothing otherwise. */
  lemma HandleOutput(text: map<string, string>, caps: Captures, key: string)
    ensures ReadText(HandleEffect(text, caps, key), OUTPUT_FILE) == ReadText(text, OUTPUT_FILE) + FoundLine(caps, key)
    ensures FirstCapture(caps, 0).Some? ==> FoundLine(caps, key) == MappingLine(key, FirstCapture(caps, 0).value)
  {
    FileNamesDistinct();
    if FirstCapture(caps, 0).Some? {
      var after := AppendText(text, OUTPUT_FILE, MappingLine(key, FirstCapture(caps, 0).value));
      assert HandleEffect(text, caps, key)[OUTPUT_FILE] == after[OUTPUT_FILE];
    } else {
      assert FoundLine(caps, key) == "";
    }
  }

  /** remove_key_from_error_file. */
  method RemoveKeyFromErrorFile(disk: Disk, key: string)
    modifies disk
    ensures disk.text == DropFromFile(old(disk.text), ERROR_FILE, key)
    ensures disk.blobs == old(disk.blobs)
  {
    RemoveStrippedLines(disk, ERROR_FILE, key);
  }

  /** fetch_and_handle: up to MAX_RETRY visits; the first that captures a
      path logs it and removes the key. found is what the source returns. */
  method FetchAndHandle(disk: Disk, browser: Browser, key: string) returns (found: bool)
    modifies disk
    ensures found == FirstCapture(browser(key), 0).Some?
    ensures disk.text == HandleEffect(old(disk.text), browser(key), key)
    ensures disk.blobs == old(disk.blobs)
  {
    var caps := browser(key);
    for attempt := 0 to MAX_RETRY
      invariant FirstCapture(caps, attempt) == FirstCapture(caps, 0)
      invariant disk.text == old(disk.text) && disk.blobs == old(disk.blobs)
    {
      var cdnPath := CaptureAt(caps, attempt);
      if cdnPath.Some? {
        disk.Append(OUTPUT_FILE, MappingLine(key, cdnPath.value));
        RemoveKeyFromErrorFile(disk, key);
        return true;
      }
    }
    return false;
  }

  /** One pass: the keys handled one after the other. */
  function PassEffect(text: map<string, string>, browser: Browser, keys: seq<string>): map<string, string>
    decreases |keys|
  {
    if keys == [] then text
    else PassEffect(HandleEffect(text, browser(keys[0]), keys[0]), browser, keys[1..])
  }

  predicate Found(browser: Browser, key: string) {
    FirstCapture(browser(key), 0).Some?
  }

  /** After a pass the error file lists exactly the keys it listed before,
      minus the handled keys that were found: a pass never adds a key, and
      no key is dropped that was not found. */
  lemma {:induction false} PassKeys(text: map<string, string>, browser: Browser, keys: seq<string>, x: string)
    ensures (ERROR_FILE in PassEffect(text, browser, keys)) == (ERROR_FILE in text)
    ensures ERROR_FILE in text ==>
              (x in ReadStripped(PassEffect(text, browser, keys)[ERROR_FILE]) <==>
                 x in ReadStripped(text[ERROR_FILE]) && !(x in keys && Found(browser, x)))
    decreases |keys|
  {
    if keys != [] {
      var next := HandleEffect(text, browser(keys[0]), keys[0]);
      HandleEffectMeaning(text, browser(keys[0]), keys[0], x);
      PassKeys(next, browser, keys[1..], x);
      assert x in keys <==> x == keys[0] || x in keys[1..];
    }
  }

  /** The lines a pass appends to the mapping file: one per found key, in
      the order the keys were read. */
  function FoundLines(browser: Browser, keys: seq<string>): string
    decreases |keys|
  {
    if keys == [] then ""
    else FoundLine(browser(keys[0]), keys[0]) + FoundLines(browser, keys[1..])
  }

  /** A pass only appends to the mapping file, the found keys' lines in
      order. */
  lemma {:induction false} PassOutput(text: map<string, string>, browser: Browser, keys: seq<string>)
    ensures ReadText(PassEffect(text, browser, keys), OUTPUT_FILE) == ReadText(text, OUTPUT_FILE) + FoundLines(browser, keys)
    decreases |keys|
  {
    if keys != [] {
      var next := HandleEffect(text, browser(keys[0]), keys[0]);
      HandleOutput(text, browser(keys[0]), keys[0]);
      PassOutput(next, browser, keys[1..]);
      var a, b, c := ReadText(text, OUTPUT_FILE), FoundLine(browser(keys[0]), keys[0]), FoundLines(browser, keys[1..]);
      assert ReadText(next, OUTPUT_FILE) == a + b;
      assert FoundLines(browser, keys) == b + c;
      assert (a + b) + c == a + (b + c);
    }
  }

  /** A pass touches no file besides the mapping file and the error file. */
  lemma {:induction false} PassKeepsOthers(text: map<string, string>, browser: Browser, keys: seq<string>, p: string)
    requires p != OUTPUT_FILE && p != ERROR_FILE
    ensures p in PassEffect(text, browser, keys) <==> p in text
    ensures p in text ==> PassEffect(text, browser, keys)[p] == text[p]
    decreases |keys|
  {
    if keys != [] {
      var next := HandleEffect(text, browser(keys[0]), keys[0]);
      HandleEffectMeaning(text, browser(keys[0]), keys[0], "");
      PassKeepsOthers(next, browser, keys[1..], p);
    }
  }

  /** The gather of one pass, run in key order. */
  method RunPass(disk: Disk, browser: Browser, keys: seq<string>)
    modifies disk
    ensures disk.text == PassEffect(old(disk.text), browser, keys)
    ensures disk.blobs == old(disk.blobs)
  {
    ghost var goal := PassEffect(disk.text, browser, keys);
    for i := 0 to |keys|
      invariant PassEffect(disk.text, browser, keys[i..]) == goal
      invariant disk.blobs == old(disk.blobs)
    {
      assert keys[i..][1..] == keys[i + 1..];
      var _ := FetchAndHandle(disk, browser, keys[i]);
    }
    assert keys[|keys|..] == [];
  }

  /** The text files when the retry loop stops, and whether it stopped by
      itself (rather than for want of further passes in the model). */
  datatype Outcome = Outcome(text: map<string, string>, finished: bool)

  /** `while True`: stop when the error file is missing or lists no key;
      otherwise pass once more, with the browser of the next pass. */
  function RetryEffect(text: map<string, string>, browsers: seq<Browser>): Outcome
    decreases |browsers|
  {
    if ERROR_FILE !in text then Outcome(text, true)
    else if ReadStripped(text[ERROR_FILE]) == [] then Outcome(text, true)
    else if browsers == [] then Outcome(text, false)
    else RetryEffect(PassEffect(text, browsers[0], ReadStripped(text[ERROR_FILE])), browsers[1..])
  }

  /** The loop stops by itself only once no key is left to retry, and no
      pass makes the error file list a key it did not list before. */
  lemma {:induction false} RetryEffectMeaning(text: map<string, string>, browsers: seq<Browser>, x: string)
    ensures RetryEffect(text, browsers).finished ==>
              ERROR_FILE !in RetryEffect(text, browsers).text
              || ReadStripped(RetryEffect(text, browsers).text[ERROR_FILE]) == []
    ensures (ERROR_FILE in RetryEffect(text, browsers).text) == (ERROR_FILE in text)
    ensures ERROR_FILE in text && x in ReadStripped(RetryEffect(text, browsers).text[ERROR_FILE]) ==>
              x in ReadStripped(text[ERROR_FILE])
    decreases |browsers|
  {
    if ERROR_FILE in text && ReadStripped(text[ERROR_FILE]) != [] && browsers != [] {
      var keys := ReadStripped(text[ERROR_FILE]);
      PassKeys(text, browsers[0], keys, x);
      RetryEffectMeaning(PassEffect(text, browsers[0], keys), browsers[1..], x);
    }
  }

  /** A pass in which every key is found empties the error file of keys, so
      the loop stops right after it. */
  lemma AllFoundFinishes(text: map<string, string>, browsers: seq<Browser>)
    requires ERROR_FILE in text && |browsers| >= 1
    requires forall k :: k in ReadStripped(text[ERROR_FILE]) ==> Found(browsers[0], k)
    ensures RetryEffect(text, browsers).finished
  {
    var keys := ReadStripped(text[ERROR_FILE]);
    if keys != [] {
      var after := PassEffect(text, browsers[0], keys);
      PassKeys(text, browsers[0], keys, "");
      var left := ReadStripped(after[ERROR_FILE]);
      if left != [] {
        PassKeys(text, browsers[0], keys, left[0]);
        assert false;
      }
      assert RetryEffect(text, browsers) == RetryEffect(after, browsers[1..]);
    }
  }

  /** retry_errors: the pass loop, with one browser per pass it may need. */
  method RetryErrors(disk: Disk, browsers: seq<Browser>) returns (finished: bool)
    modifies disk
    ensures Outcome(disk.text, finished) == RetryEffect(old(disk.text), browsers)
    ensures disk.blobs == old(disk.blobs)
  {
    ghost var goal := RetryEffect(disk.text, browsers);
    var pass := 0;
    while true
      invariant 0 <= pass <= |browsers|
      invariant RetryEffect(disk.text, browsers[pass..]) == goal
      invariant disk.blobs == old(disk.blobs)
      decreases |browsers| - pass
    {
      if ERROR_FILE !in disk.text {
        return true;
      }
      var keys := ReadStripped(disk.text[ERROR_FILE]);
      if keys == [] {
        return true;
      }
      if pass == |browsers| {
        return false;
      }
      assert browsers[pass..][1..] == browsers[pass + 1..];
      RunPass(disk, browsers[pass], keys);
      pass := pass + 1;
    }
  }
}
