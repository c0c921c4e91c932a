/** shared/selfupdate/selfupdate.go over a file system that remembers every state it has been in. */
module Placement {
  import opened Wrappers

  const MAX_BINARY_SIZE: nat := 0x1000_0000
  const MAX_CHECKSUM_SIZE: nat := 1024
  const SHA256_HEX_LEN := 64

  // io.Copy moves the body in buffers of this size.
  const COPY_BUFFER: nat := 32768

  newtype Byte = b: int | 0 <= b < 256
  type Bytes = seq<Byte>
  type Files = map<string, Bytes>

  /** A GET: no response, or a status, the bytes that arrive and whether the transfer then breaks off. */
  datatype Reply<T> = Unreachable | Reply(status: int, body: seq<T>, broken: bool)

  /** Which file operations fail; `write` is the number of buffers written before one does. */
  datatype Faults = Faults(create: bool, write: Option<nat>, chmod: bool, sync: bool, close: bool, rename: bool, remove: bool)

  // ----- Checksum files -----

  predicate IsSpace(c: char) { c == ' ' || c == '\t' || c == '\n' || c == '\r' || c == '\U{0B}' || c == '\U{0C}' }

  function Lower(c: char): char {
    if 'A' <= c <= 'Z' then (c as int + 32) as char else c
  }

  predicate IsHex(c: char) { '0' <= c <= '9' || 'a' <= c <= 'f' }

  function SkipSpaces(s: string): string {
    if s != "" && IsSpace(s[0]) then SkipSpaces(s[1..]) else s
  }

  function FirstWord(s: string): string {
    if s == "" || IsSpace(s[0]) then "" else [s[0]] + FirstWord(s[1..])
  }

  function LowerAll(s: string): (r: string)
    ensures |r| == |s| && forall i :: 0 <= i < |s| ==> r[i] == Lower(s[i])
  {
    seq(|s|, i requires 0 <= i < |s| => Lower(s[i]))
  }

  /** The digest of a .sha256 file: the first word, lower-cased, if it is 64 hexadecimal digits. */
  function ParseChecksum(raw: string): (sum: Option<string>)
    ensures sum.Some? ==> |sum.value| == SHA256_HEX_LEN && forall c :: c in sum.value ==> IsHex(c)
  {
    var word := LowerAll(FirstWord(SkipSpaces(raw)));
    if |word| == SHA256_HEX_LEN && forall c :: c in word ==> IsHex(c) then Some(word) else None
  }

  /** The characters i..j are the first field: blanks before it, none in it, a blank or the end after it. */
  ghost predicate FirstField(raw: string, i: nat, j: nat) {
    && i < j <= |raw|
    && (forall k :: 0 <= k < i ==> IsSpace(raw[k]))
    && (forall k :: i <= k < j ==> !IsSpace(raw[k]))
    && (j < |raw| ==> IsSpace(raw[j]))
  }

  lemma {:induction false} SkipsTo(raw: string, i: nat)
    requires i <= |raw| && (forall k :: 0 <= k < i ==> IsSpace(raw[k])) && (i < |raw| ==> !IsSpace(raw[i]))
    ensures SkipSpaces(raw) == raw[i..]
  {
    if i > 0 {
      SkipsTo(raw[1..], i - 1);
    }
  }

  lemma {:induction false} WordUpTo(s: string, n: nat)
    requires n <= |s| && (forall k :: 0 <= k < n ==> !IsSpace(s[k])) && (n < |s| ==> IsSpace(s[n]))
    ensures FirstWord(s) == s[..n]
  {
    if n > 0 {
      WordUpTo(s[1..], n - 1);
      assert s[..n] == [s[0]] + s[1..][..n - 1];
    }
  }

  /** A hexadecimal digit in either case, and in lower case. */
  predicate EitherCase(c: char, lower: char) {
    || ('0' <= c <= '9' && lower == c)
    || ('a' <= c <= 'f' && lower == c)
    || ('A' <= c <= 'F' && lower as int == c as int + 32)
  }

  lemma LowerHex(c: char)
    ensures IsHex(Lower(c)) <==> EitherCase(c, Lower(c))
  {
  }

  /** Exactly which checksum files are accepted: whatever follows it, the first field decides, in either case. */
  lemma ChecksumIsFirstField(raw: string, i: nat, j: nat)
    requires FirstField(raw, i, j)
    ensures ParseChecksum(raw).Some? <==>
              j - i == 64 && forall k :: i <= k < j ==> ('0' <= raw[k] <= '9' || 'a' <= raw[k] <= 'f' || 'A' <= raw[k] <= 'F')
    ensures ParseChecksum(raw).Some? ==> forall k :: i <= k < j ==> EitherCase(raw[k], ParseChecksum(raw).value[k - i])
  {
    SkipsTo(raw, i);
    WordUpTo(raw[i..], j - i);
    var word := LowerAll(raw[i..][..j - i]);
    forall k | i <= k < j
      ensures word[k - i] == Lower(raw[k]) && word[k - i] in word && (IsHex(word[k - i]) <==> EitherCase(raw[k], word[k - i]))
    {
      LowerHex(raw[k]);
    }
    assert forall c :: c in word ==> exists n :: 0 <= n < |word| && c == word[n] == Lower(raw[i + n]);
  }

  /** A file without a field is refused. */
  lemma BlankChecksumRefused(raw: string)
    requires forall k :: 0 <= k < |raw| ==> IsSpace(raw[k])
    ensures ParseChecksum(raw).None?
  {
    SkipsTo(raw, |raw|);
  }

  /** fetch: the whole body, unless it fails, breaks off or is longer than the limit. */
  function Fetch<T>(reply: Reply<T>, limit: nat): (data: Option<seq<T>>)
    ensures data.Some? <==> reply.Reply? && reply.status == 200 && |reply.body| <= limit && !reply.broken
    ensures data.Some? ==> data.value == reply.body
  {
    if reply.Unreachable? || reply.status != 200 then None
    else
      var data := if |reply.body| > limit + 1 then reply.body[..limit + 1] else reply.body;
      if reply.broken && |reply.body| <= limit then None
      else if |data| > limit then None else Some(data)
  }

  // ----- Files -----

  class FileSystem {
    var files: Files
    /** Every state since the beginning, one entry per system call: where a crash can leave things. */
    ghost var states: seq<Files>

    constructor (files: Files)
      ensures this.files == files && states == []
    {
      this.files, states := files, [];
    }

    method Write(name: string, content: Bytes)
      modifies this
      ensures files == old(files)[name := content]
      ensures states == old(states) + [files]
    {
      files := files[name := content];
      states := states + [files];
    }

    method Rename(from: string, to: string, fails: bool) returns (ok: bool)
      requires from in files && from != to
      modifies this
      ensures ok == !fails
      ensures files == if ok then (old(files) - {from})[to := old(files)[from]] else old(files)
      ensures states == old(states) + [files]
    {
      if !fails {
        files := (files - {from})[to := files[from]];
      }
      states := states + [files];
      ok := !fails;
    }

    method Remove(name: string, fails: bool)
      modifies this
      ensures files == if fails then old(files) else old(files) - {name}
      ensures states == old(states) + [files]
    {
      if !fails {
        files := files - {name};
      }
      states := states + [files];
    }
  }

  /** Nothing but the temporary file differs. */
  ghost predicate OnlyTemp(before: Files, after: Files, tmp: string) {
    after - {tmp} == before - {tmp}
  }

  /** Nothing but the temporary file differs, or the destination holds what was verified and nothing else differs. */
  ghost predicate Safe(before: Files, after: Files, tmp: string, dest: string, digest: Bytes -> string, want: Option<string>) {
    || OnlyTemp(before, after, tmp)
    || (after - {tmp, dest} == before - {tmp, dest} && dest in after && Verified(after[dest], digest, want))
  }

  /** Complete and verified: within the size cap and matching the published digest. */
  ghost predicate Verified(content: Bytes, digest: Bytes -> string, want: Option<string>) {
    |content| <= MAX_BINARY_SIZE && want == Some(digest(content))
  }

  /** The digest a release publishes, as far as this client can read it. */
  function Published(sum: Reply<char>): Option<string> {
    var raw := Fetch(sum, MAX_CHECKSUM_SIZE);
    if raw.None? then None else ParseChecksum(raw.value)
  }

  /** io.Copy into the temporary file, hashing as it goes. */
  method Copy(fs: FileSystem, tmp: string, data: Bytes, failAt: Option<nat>) returns (ok: bool, hashed: Bytes)
    requires tmp in fs.files && fs.files[tmp] == []
    modifies fs
    ensures OnlyTemp(old(fs.files), fs.files, tmp) && tmp in fs.files
    ensures ok <==> failAt.None? || failAt.value * COPY_BUFFER >= |data|
    ensures ok ==> fs.files[tmp] == data && hashed == data
    ensures old(fs.states) <= fs.states
    ensures forall k :: |old(fs.states)| <= k < |fs.states| ==> OnlyTemp(old(fs.files), fs.states[k], tmp)
  {
    hashed := [];
    ghost var n := 0;
    while |hashed| < |data|
      invariant n * COPY_BUFFER >= |hashed| && (|hashed| < |data| ==> |hashed| == n * COPY_BUFFER)
      invariant failAt.Some? ==> n <= failAt.value || n == 0
      invariant failAt.Some? ==> |hashed| <= failAt.value * COPY_BUFFER
      invariant hashed <= data && tmp in fs.files && fs.files[tmp] == hashed
      invariant OnlyTemp(old(fs.files), fs.files, tmp)
      invariant old(fs.states) <= fs.states
      invariant forall k :: |old(fs.states)| <= k < |fs.states| ==> OnlyTemp(old(fs.files), fs.states[k], tmp)
      decreases |data| - |hashed|
    {
      if failAt.Some? && |hashed| == failAt.value * COPY_BUFFER {
        return false, hashed;
      }
      var end := if |hashed| + COPY_BUFFER <= |data| then |hashed| + COPY_BUFFER else |data|;
      hashed := data[..end];
      fs.Write(tmp, hashed);
      n := n + 1;
    }
    ok := true;
  }

  lemma OnlyTempAdds(before: Files, after: Files, tmp: string)
    requires OnlyTemp(before, after, tmp) && tmp in after
    ensures after == before[tmp := after[tmp]]
  {
    forall f | f != tmp ensures (f in after <==> f in before) && (f in before ==> after[f] == before[f]) {
      assert f in after <==> f in after - {tmp};
      assert f in before <==> f in before - {tmp};
    }
    assert after.Keys == before[tmp := after[tmp]].Keys;
  }

  /** Everything that has to go right between opening the connection and closing the temporary file. */
  predicate Downloads(binary: Reply<Byte>, faults: Faults) {
    && binary.Reply? && binary.status == 200 && !faults.create
    && |binary.body| <= MAX_BINARY_SIZE && !binary.broken
    && (faults.write.None? || faults.write.value * COPY_BUFFER >= |binary.body|)
    && !faults.chmod && !faults.sync && !faults.close
  }

  method Download(fs: FileSystem, binary: Reply<Byte>, tmp: string, faults: Faults, digest: Bytes -> string)
    returns (sum: Option<string>)
    requires tmp !in fs.files
    modifies fs
    ensures sum.Some? <==> Downloads(binary, faults)
    ensures sum.Some? ==> fs.files == old(fs.files)[tmp := binary.body] && sum.value == digest(binary.body)
    ensures sum.None? ==> fs.files - {tmp} == old(fs.files)
    ensures sum.None? && tmp in fs.files ==> faults.remove && !faults.create
    ensures old(fs.states) <= fs.states
    ensures forall k :: |old(fs.states)| <= k < |fs.states| ==> OnlyTemp(old(fs.files), fs.states[k], tmp)
  {
    if binary.Unreachable? || binary.status != 200 || faults.create {
      assert fs.files - {tmp} == fs.files;
      return None;
    }
    fs.Write(tmp, []);
    var limit := MAX_BINARY_SIZE + 1;
    var arriving := if |binary.body| > limit then binary.body[..limit] else binary.body;
    var ok, hashed := Copy(fs, tmp, arriving, faults.write);
    ok := ok && !(binary.broken && |binary.body| <= MAX_BINARY_SIZE) && |arriving| <= MAX_BINARY_SIZE;
    ok := ok && !faults.chmod && !faults.sync && !faults.close;
    if !ok {
      fs.Remove(tmp, faults.remove);
      return None;
    }
    OnlyTempAdds(old(fs.files), fs.files, tmp);
    return Some(digest(hashed));
  }

  /** Exactly when a placement succeeds. */
  predicate Places(sum: Reply<char>, binary: Reply<Byte>, faults: Faults, digest: Bytes -> string) {
    && Published(sum).Some? && Downloads(binary, faults)
    && digest(binary.body) == Published(sum).value && !faults.rename
  }

  /**
   Spelled out: both requests answered with 200, unbroken and within 1 KiB and 256 MiB, every buffer written, none of the
   file operations failing, and the bytes' digest the one in the checksum file.
   */
  lemma PlacesExactly(sum: Reply<char>, binary: Reply<Byte>, faults: Faults, digest: Bytes -> string)
    ensures Places(sum, binary, faults, digest) <==>
            && sum.Reply? && sum.status == 200 && !sum.broken && |sum.body| <= 1024
            && binary.Reply? && binary.status == 200 && !binary.broken && |binary.body| <= 268_435_456
            && ParseChecksum(sum.body) == Some(digest(binary.body))
            && (faults.write.Some? ==> |binary.body| <= 32768 * faults.write.value)
            && !faults.create && !faults.chmod && !faults.sync && !faults.close && !faults.rename
  {
  }

  method Place(fs: FileSystem, sum: Reply<char>, binary: Reply<Byte>, tmp: string, dest: string,
               faults: Faults, digest: Bytes -> string) returns (placed: bool)
    requires tmp !in fs.files && tmp != dest
    modifies fs
    ensures placed <==> Places(sum, binary, faults, digest)
    ensures placed ==> fs.files == old(fs.files)[dest := binary.body] && Verified(binary.body, digest, Published(sum))
    ensures !placed ==> fs.files - {tmp} == old(fs.files)
    ensures tmp in fs.files ==> faults.remove
    ensures old(fs.states) <= fs.states
    ensures forall k :: |old(fs.states)| <= k < |fs.states| ==>
              Safe(old(fs.files), fs.states[k], tmp, dest, digest, Published(sum))
  {
    assert fs.files - {tmp} == fs.files;
    var raw := Fetch(sum, MAX_CHECKSUM_SIZE);
    if raw.None? {
      return false;
    }
    var want := ParseChecksum(raw.value);
    if want.None? {
      return false;
    }
    var got := Download(fs, binary, tmp, faults, digest);
    if got.None? {
      return false;
    }
    if got != want {
      fs.Remove(tmp, faults.remove);
      return false;
    }
    placed := fs.Rename(tmp, dest, faults.rename);
    // The deferred removal; after a successful rename there is nothing left under that name.
    fs.Remove(tmp, faults.remove);
  }

  /** The destination is as it was, or holds complete verified bytes. */
  ghost predicate DestFine(before: Files, after: Files, dest: string, digest: Bytes -> string, want: Option<string>) {
    || ((dest in after <==> dest in before) && (dest in before ==> after[dest] == before[dest]))
    || (dest in after && Verified(after[dest], digest, want))
  }

  lemma SafeKeepsDest(before: Files, after: Files, tmp: string, dest: string, digest: Bytes -> string, want: Option<string>)
    requires tmp != dest && Safe(before, after, tmp, dest, digest, want)
    ensures DestFine(before, after, dest, digest, want)
  {
    assert dest in after <==> dest in after - {tmp};
    assert dest in before <==> dest in before - {tmp};
  }
}
