/** Pulling an archive from a peer into the one file a primer keeps per key. */
module Peer {
  import opened Prelude

  /** SHA-256 is left uninterpreted: any function from contents to digests. */
  type Hash = Bytes -> Digest

  /** What one pull attempt meets. A peer may serve any bytes; copying them may break off part-way, and
    * closing, re-reading or removing the local file may fail. */
  datatype Transfer =
    | NoResponse
    | BadStatus(code: int)
    | NotCreated
    | Body(bytes: Bytes, copied: bool, closed: bool, readable: bool, removable: bool)

  type File = Option<Bytes>

  /** LocalArchiveExists: present and not empty. */
  predicate Usable(file: File) {
    file.Some? && |file.value| > 0
  }

  /** The attempt counts as a success. With no expected digest nothing is checked. */
  predicate Accepted(H: Hash, t: Transfer, expected: Digest) {
    t.Body? && t.copied && t.closed && (expected != "" ==> t.readable && H(t.bytes) == expected)
  }

  /** The file once the attempt is over. */
  function Settled(H: Hash, file: File, t: Transfer, expected: Digest): File {
    if !t.Body? then file
    else if Accepted(H, t, expected) || !t.removable then Some(t.bytes)
    else None
  }

  class Disk {
    var file: File

    constructor (file: File)
      ensures this.file == file
    {
      this.file := file;
    }

    /** os.Create truncates. */
    method Create()
      modifies this
      ensures file == Some([])
    {
      file := Some([]);
    }

    method Append(bytes: Bytes)
      requires file.Some?
      modifies this
      ensures file == Some(old(file.value) + bytes)
    {
      file := Some(file.value + bytes);
    }

    method Remove(possible: bool)
      modifies this
      ensures file == if possible then None else old(file)
    {
      if possible {
        file := None;
      }
    }

    method PullFromPeer(H: Hash, t: Transfer, expected: Digest) returns (r: Result<nat>)
      modifies this
      ensures file == Settled(H, old(file), t, expected)
      ensures r == if Accepted(H, t, expected) then Ok(|t.bytes|) else Err
      // success is one whole body, copied and closed, with the expected digest if there is one
      ensures r.Ok? <==> && t.Body? && t.copied && t.closed
                         && (expected != "" ==> t.readable && H(t.bytes) == expected)
      ensures r.Ok? ==> file == Some(t.bytes) && r.value == |t.bytes|
      ensures r.Err? ==> file == if !t.Body? then old(file) else if t.removable then None else Some(t.bytes)
    {
      if !t.Body? {
        return Err;
      }
      Create();
      Append(t.bytes);
      assert file.value == t.bytes;
      if !t.copied {
        Remove(t.removable);
        return Err;
      }
      if !t.closed {
        Remove(t.removable);
        return Err;
      }
      if expected != "" {
        if !t.readable {
          Remove(t.removable);
          return Err;
        }
        var got := H(file.value);
        if got != expected {
          Remove(t.removable);
          return Err;
        }
      }
      return Ok(|file.value|);
    }
  }

  // ---------------------------------------------------------------- the loop over the peers

  /** The file after a list of attempts, all of which failed. */
  function SettledAll(H: Hash, file: File, ts: seq<Transfer>, expected: Digest): File {
    if ts == [] then file
    else Settled(H, SettledAll(H, file, ts[..|ts| - 1], expected), ts[|ts| - 1], expected)
  }

  ghost predicate NoneAccepted(H: Hash, ts: seq<Transfer>, expected: Digest) {
    forall k :: 0 <= k < |ts| ==> !Accepted(H, ts[k], expected)
  }

  /** Attempt `k` left bytes behind that could not be removed and no later attempt touched the file. */
  ghost predicate Litter(ts: seq<Transfer>, k: nat) {
    && k < |ts|
    && ts[k].Body? && !ts[k].removable && |ts[k].bytes| > 0
    && forall j :: k < j < |ts| ==> !ts[j].Body?
  }

  /** When every attempt failed and there was no usable file before, there is one afterwards exactly when
    * the last attempt that opened the file could not remove what it had written. */
  lemma {:induction false} FailedPullsLeaveNothingUsable(H: Hash, file: File, ts: seq<Transfer>, expected: Digest)
    requires !Usable(file) && NoneAccepted(H, ts, expected)
    ensures Usable(SettledAll(H, file, ts, expected)) <==> exists k: nat :: Litter(ts, k)
  {
    if ts != [] {
      var n := |ts| - 1;
      var init, last := ts[..n], ts[n];
      FailedPullsLeaveNothingUsable(H, file, init, expected);
      assert !Accepted(H, last, expected);
      if last.Body? {
        if Usable(SettledAll(H, file, ts, expected)) { assert Litter(ts, n); }
      } else {
        assert forall k: nat :: Litter(init, k) ==> Litter(ts, k);
        assert forall k: nat :: Litter(ts, k) ==> Litter(init, k);
      }
    }
  }

  /** Whatever a list of failed attempts leaves is the old file, nothing, or one body alone. */
  lemma {:induction false} BodiesAreNeverMixed(H: Hash, file: File, ts: seq<Transfer>, expected: Digest)
    ensures var after := SettledAll(H, file, ts, expected);
            after == file || after.None? || exists k :: 0 <= k < |ts| && ts[k].Body? && after.value == ts[k].bytes
  {
    if ts != [] {
      BodiesAreNeverMixed(H, file, ts[..|ts| - 1], expected);
    }
  }
}
