/// Shared vocabulary of the crawler model: optional values, bytes, what one
/// HTTP request can come back with, and the file system the scripts read and
/// rewrite.
module Common {

  datatype Option<+T> = None | Some(value: T)

  newtype byte = x: int | 0 <= x < 256

  /** One attempt at an HTTP request: it raised (timeout, connection error)
      or a response with a status code and a body arrived. */
  datatype Attempt = Raised | Response(status: int, body: seq<byte>)

  /** The remote server as one run sees it: for every URL, the outcomes of the
      successive attempts made at it. Attempts beyond the listed ones raise. */
  type Network = string -> seq<Attempt>

  /** A non-empty sequence is its head followed by its tail. */
  lemma HeadTail<T>(s: seq<T>)
    requires s != []
    ensures [s[0]] + s[1..] == s
  {
  }

  function AttemptAt(outs: seq<Attempt>, i: nat): (a: Attempt)
    ensures i >= |outs| ==> a == Raised
  {
    if i < |outs| then outs[i] else Raised
  }

  predicate IsOk(a: Attempt) {
    a.Response? && a.status == 200
  }

  /** The body of the first of attempts k .. budget-1 whose status is 200;
      every other attempt, raised or not, is followed by another one. */
  function FirstOk(outs: seq<Attempt>, k: nat, budget: nat): Option<seq<byte>>
    decreases budget - k
  {
    if k >= budget then None
    else if IsOk(AttemptAt(outs, k)) then Some(AttemptAt(outs, k).body)
    else FirstOk(outs, k + 1, budget)
  }

  /** A retry loop that stops at the first 200 answers with the body of the
      earliest 200 among its first `budget` attempts, and with None exactly
      when none of them got a 200. */
  lemma {:induction false} FirstOkMeaning(outs: seq<Attempt>, k: nat, budget: nat)
    ensures FirstOk(outs, k, budget).None? <==>
              forall j :: k <= j < budget ==> !IsOk(AttemptAt(outs, j))
    ensures FirstOk(outs, k, budget).Some? ==>
              exists j :: k <= j < budget && IsOk(AttemptAt(outs, j))
                && AttemptAt(outs, j).body == FirstOk(outs, k, budget).value
                && forall i :: k <= i < j ==> !IsOk(AttemptAt(outs, i))
    decreases budget - k
  {
    if k < budget && !IsOk(AttemptAt(outs, k)) {
      FirstOkMeaning(outs, k + 1, budget);
    }
  }

  /** `if not content`: a download counts only when it brought a non-empty
      body; None and an empty body are both failures. */
  predicate Fetched(b: Option<seq<byte>>) {
    b.Some? && b.value != []
  }

  /** The state of the file system as a value: the text files and the saved
      images, by path. */
  datatype Files = Files(text: map<string, string>, blobs: map<string, seq<byte>>)

  /** What reading a text file yields; a missing file is read as empty. */
  function ReadText(text: map<string, string>, path: string): string {
    if path in text then text[path] else ""
  }

  /** The text files after open(path, "a").write(s). */
  function AppendText(text: map<string, string>, path: string, s: string): map<string, string> {
    text[path := ReadText(text, path) + s]
  }

  /** The file system: text files (queues, logs) and binary files (images),
      both by path. Directories are implicit. */
  class Disk {
    var text: map<string, string>
    var blobs: map<string, seq<byte>>

    constructor (text0: map<string, string>, blobs0: map<string, seq<byte>>)
      ensures text == text0 && blobs == blobs0
    {
      text := text0;
      blobs := blobs0;
    }

    /** What reading the text file at `path` yields; a missing file is read
        as empty, callers that care check `path in text` first. */
    function Contents(path: string): string
      reads this
    {
      ReadText(text, path)
    }

    /** open(path, "a").write(s): creates the file when it is missing. */
    method Append(path: string, s: string)
      modifies this
      ensures text == AppendText(old(text), path, s)
      ensures blobs == old(blobs)
    {
      text := text[path := Contents(path) + s];
    }

    /** open(path, "w").write(s): the whole file is replaced. */
    method Write(path: string, s: string)
      modifies this
      ensures text == old(text)[path := s]
      ensures blobs == old(blobs)
    {
      text := text[path := s];
    }

    /** open(path, "wb").write(b). */
    method WriteBlob(path: string, b: seq<byte>)
      modifies this
      ensures blobs == old(blobs)[path := b]
      ensures text == old(text)
    {
      blobs := blobs[path := b];
    }
  }
}
