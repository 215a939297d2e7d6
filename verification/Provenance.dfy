/// The framed byte stream behind the provenance digests
/// (src/mech_int_vla/provenance.py: _allowlisted_sha256, _frame, _validate_allowlist).
///
/// The stream fed to the hash stands for the digest; paths are their UTF-8 bytes.

module Provenance {
  import opened Wrappers
  import opened Sequences

  const WIDTH: nat := 8

  datatype ProvenanceError = TooLarge | BadAllowlist | UnstableSnapshot

  datatype File = File(path: Bytes, content: Bytes)

  // ---------------------------------------------------------------- big-endian integers

  function Capacity(width: nat): (r: nat)
    ensures r > 0
  {
    if width == 0 then 1 else 256 * Capacity(width - 1)
  }

  // `n.to_bytes(width, "big")`
  function ToBytes(n: nat, width: nat): (r: Bytes)
    requires n < Capacity(width)
    ensures |r| == width
  {
    if width == 0 then [] else ToBytes(n / 256, width - 1) + [n % 256]
  }

  function FromBytes(b: Bytes): nat {
    if b == [] then 0 else 256 * FromBytes(b[..|b| - 1]) + b[|b| - 1]
  }

  lemma {:induction false} FromTo(n: nat, width: nat)
    requires n < Capacity(width)
    ensures FromBytes(ToBytes(n, width)) == n
  {
    if width > 0 {
      FromTo(n / 256, width - 1);
      var b := ToBytes(n, width);
      assert b[..|b| - 1] == ToBytes(n / 256, width - 1);
    }
  }

  lemma {:induction false} ToFrom(b: Bytes)
    ensures FromBytes(b) < Capacity(|b|) && ToBytes(FromBytes(b), |b|) == b
  {
    if b != [] {
      ToFrom(b[..|b| - 1]);
      assert b == b[..|b| - 1] + [b[|b| - 1]];
    }
  }

  lemma CapacityIs()
    ensures Capacity(WIDTH) == 0x1_0000_0000_0000_0000
  {
    assert Capacity(2) == 256 * Capacity(1) == 0x1_0000;
    assert Capacity(4) == 256 * Capacity(3) == 0x1_0000_0000;
    assert Capacity(6) == 256 * Capacity(5);
  }

  // ---------------------------------------------------------------- frames

  // The length fits the eight bytes of its frame.
  predicate Fits(v: Bytes): (fits: bool)
    ensures fits <==> |v| < 0x1_0000_0000_0000_0000
  {
    CapacityIs();
    |v| < Capacity(WIDTH)
  }

  function Frame(v: Bytes): Bytes
    requires Fits(v)
  {
    ToBytes(|v|, WIDTH) + v
  }

  function DecodeFrame(b: Bytes): Option<(Bytes, Bytes)> {
    if |b| < WIDTH then None
    else
      var n := FromBytes(b[..WIDTH]);
      if |b| < WIDTH + n then None else Some((b[WIDTH..WIDTH + n], b[WIDTH + n..]))
  }

  /// A frame is read back, whatever follows it.
  lemma FrameRoundTrip(v: Bytes, rest: Bytes)
    requires Fits(v)
    ensures DecodeFrame(Frame(v) + rest) == Some((v, rest))
  {
    hide ToBytes, FromBytes, Capacity;
    var b := Frame(v) + rest;
    assert b[..WIDTH] == ToBytes(|v|, WIDTH);
    FromTo(|v|, WIDTH);
    assert b[WIDTH..WIDTH + |v|] == v && b[WIDTH + |v|..] == rest;
  }

  lemma FrameExact(b: Bytes)
    ensures var d := DecodeFrame(b);
            d.Some? ==> Fits(d.value.0) && b == Frame(d.value.0) + d.value.1 && |d.value.1| < |b|
  {
    hide ToBytes, FromBytes, Capacity;
    if |b| >= WIDTH {
      ToFrom(b[..WIDTH]);
      var n := FromBytes(b[..WIDTH]);
      if |b| >= WIDTH + n {
        assert |b[WIDTH..WIDTH + n]| == n;
        assert b == b[..WIDTH] + b[WIDTH..WIDTH + n] + b[WIDTH + n..];
      }
    }
  }

  // ---------------------------------------------------------------- the whole stream

  predicate FileFits(f: File) {
    Fits(f.path) && Fits(f.content)
  }

  predicate AllFilesFit(files: seq<File>) {
    forall i :: 0 <= i < |files| ==> FileFits(files[i])
  }

  predicate AllFit(domain: Bytes, files: seq<File>) {
    Fits(domain) && |files| < Capacity(WIDTH) && AllFilesFit(files)
  }

  function EncodeFiles(files: seq<File>): Bytes
    requires AllFilesFit(files)
  {
    if files == [] then []
    else
      var last := files[|files| - 1];
      assert FileFits(last);
      EncodeFiles(files[..|files| - 1]) + Frame(last.path) + Frame(last.content)
  }

  function Encode(domain: Bytes, files: seq<File>): Bytes
    requires AllFit(domain, files)
  {
    Frame(domain) + ToBytes(|files|, WIDTH) + EncodeFiles(files)
  }

  function DecodeFiles(b: Bytes, n: nat): Option<seq<File>> {
    if n == 0 then (if b == [] then Some([]) else None)
    else match DecodeFrame(b)
      case None => None
      case Some((path, more)) =>
        match DecodeFrame(more)
        case None => None
        case Some((content, rest)) =>
          match DecodeFiles(rest, n - 1)
          case None => None
          case Some(files) => Some([File(path, content)] + files)
  }

  function Decode(b: Bytes): Option<(Bytes, seq<File>)> {
    match DecodeFrame(b)
    case None => None
    case Some((domain, more)) =>
      if |more| < WIDTH then None
      else match DecodeFiles(more[WIDTH..], FromBytes(more[..WIDTH]))
        case None => None
        case Some(files) => Some((domain, files))
  }

  lemma {:induction false} EncodeFront(f: File, rest: seq<File>)
    requires FileFits(f) && AllFilesFit(rest)
    ensures EncodeFiles([f] + rest) == Frame(f.path) + Frame(f.content) + EncodeFiles(rest)
  {
    hide Frame;
    var all := [f] + rest;
    assert FileFits(all[|all| - 1]);
    if rest == [] {
      assert all[..0] == [];
    } else {
      var last := rest[|rest| - 1];
      assert all[..|all| - 1] == [f] + rest[..|rest| - 1];
      EncodeFront(f, rest[..|rest| - 1]);
    }
  }

  lemma {:induction false} DecodeEncodedFiles(files: seq<File>)
    requires AllFilesFit(files)
    ensures DecodeFiles(EncodeFiles(files), |files|) == Some(files)
  {
    hide Frame, DecodeFrame, EncodeFiles;
    if files == [] {
      NoFiles();
    } else {
      var f, rest := files[0], files[1..];
      assert files == [f] + rest;
      assert FileFits(f);
      EncodeFront(f, rest);
      var tail := EncodeFiles(rest);
      assert EncodeFiles(files) == Frame(f.path) + (Frame(f.content) + tail);
      FrameRoundTrip(f.path, Frame(f.content) + tail);
      FrameRoundTrip(f.content, tail);
      DecodeEncodedFiles(rest);
    }
  }

  lemma NoFiles()
    ensures EncodeFiles([]) == []
  {
  }

  lemma {:induction false} EncodeDecodedFiles(b: Bytes, n: nat)
    ensures var d := DecodeFiles(b, n);
            d.Some? ==> |d.value| == n && AllFilesFit(d.value) && EncodeFiles(d.value) == b
    decreases n
  {
    hide Frame, DecodeFrame, EncodeFiles, Fits;
    NoFiles();
    if n > 0 && DecodeFrame(b).Some? {
      FrameExact(b);
      var (path, more) := DecodeFrame(b).value;
      if DecodeFrame(more).Some? {
        FrameExact(more);
        var (content, rest) := DecodeFrame(more).value;
        EncodeDecodedFiles(rest, n - 1);
        var d := DecodeFiles(rest, n - 1);
        if d.Some? {
          EncodeFront(File(path, content), d.value);
          assert b == Frame(path) + Frame(content) + rest;
        }
      }
    }
  }

  /// The stream can be decoded back to its domain, paths and contents.
  lemma DecodeEncoded(domain: Bytes, files: seq<File>)
    requires AllFit(domain, files)
    ensures Decode(Encode(domain, files)) == Some((domain, files))
  {
    hide Frame, DecodeFrame, EncodeFiles, ToBytes, FromBytes, Capacity;
    var tail := EncodeFiles(files);
    var more := ToBytes(|files|, WIDTH) + tail;
    assert Encode(domain, files) == Frame(domain) + more;
    FrameRoundTrip(domain, more);
    assert more[..WIDTH] == ToBytes(|files|, WIDTH) && more[WIDTH..] == tail;
    FromTo(|files|, WIDTH);
    DecodeEncodedFiles(files);
  }

  /// And only streams that encode something can be decoded.
  lemma EncodeDecoded(b: Bytes)
    ensures var d := Decode(b); d.Some? ==> AllFit(d.value.0, d.value.1) && Encode(d.value.0, d.value.1) == b
  {
    hide Frame, DecodeFrame, EncodeFiles, ToBytes, FromBytes, Capacity, Fits;
    if Decode(b).Some? {
      FrameExact(b);
      var (domain, more) := DecodeFrame(b).value;
      ToFrom(more[..WIDTH]);
      EncodeDecodedFiles(more[WIDTH..], FromBytes(more[..WIDTH]));
      assert more == more[..WIDTH] + more[WIDTH..];
    }
  }

  /// Equal streams mean equal domains, file lists and contents.
  lemma StreamsDiffer(domain: Bytes, files: seq<File>, other: Bytes, otherFiles: seq<File>)
    requires AllFit(domain, files) && AllFit(other, otherFiles)
    requires Encode(domain, files) == Encode(other, otherFiles)
    ensures domain == other && files == otherFiles
  {
    DecodeEncoded(domain, files);
    DecodeEncoded(other, otherFiles);
  }

  // ---------------------------------------------------------------- the allowlist

  const SLASH: Byte := 47
  const DOT: Byte := 46

  // `s.split("/")`
  function Split(s: Bytes): (r: seq<Bytes>)
    ensures |r| >= 1
  {
    if s == [] then [[]]
    else
      var before := Split(s[..|s| - 1]);
      var last := s[|s| - 1];
      if last == SLASH then before + [[]]
      else before[..|before| - 1] + [before[|before| - 1] + [last]]
  }

  function Join(parts: seq<Bytes>): Bytes
    requires parts != []
  {
    if |parts| == 1 then parts[0] else Join(parts[..|parts| - 1]) + [SLASH] + parts[|parts| - 1]
  }

  // PurePosixPath drops empty and "." components, and keeps "..".
  function Parts(parts: seq<Bytes>): seq<Bytes> {
    if parts == [] then []
    else
      var last := parts[|parts| - 1];
      Parts(parts[..|parts| - 1]) + (if last == [] || last == [DOT] then [] else [last])
  }

  function AsPosix(s: Bytes): Bytes {
    var parts := Parts(Split(s));
    if parts == [] then [DOT] else Join(parts)
  }

  predicate PathAccepted(s: Bytes) {
    && s != []
    && s[0] != SLASH
    && AsPosix(s) == s
    && forall i :: 0 <= i < |Parts(Split(s))| ==> Parts(Split(s))[i] != [DOT, DOT]
  }

  lemma {:induction false} JoinSplit(s: Bytes)
    ensures Join(Split(s)) == s
  {
    if s != [] {
      var shorter, last := s[..|s| - 1], s[|s| - 1];
      JoinSplit(shorter);
      assert s == shorter + [last];
      var before := Split(shorter);
      var n := |before|;
      if last == SLASH {
        assert (before + [[]])[..n] == before;
      } else {
        var grown := before[..n - 1] + [before[n - 1] + [last]];
        assert grown[..n - 1] == before[..n - 1];
        assert n > 1 ==> Join(before[..n - 1]) + [SLASH] + (before[n - 1] + [last])
                         == Join(before[..n - 1]) + [SLASH] + before[n - 1] + [last];
      }
    }
  }

  lemma {:induction false} PartsClean(parts: seq<Bytes>)
    ensures forall i :: 0 <= i < |Parts(parts)| ==> Parts(parts)[i] != [] && Parts(parts)[i] != [DOT]
    ensures (forall i :: 0 <= i < |parts| ==> parts[i] != [] && parts[i] != [DOT]) ==> Parts(parts) == parts
  {
    if parts != [] {
      PartsClean(parts[..|parts| - 1]);
      assert parts == parts[..|parts| - 1] + [parts[|parts| - 1]];
    }
  }

  // Dropping a component makes the joined path shorter.
  lemma {:induction false} PartsShorter(parts: seq<Bytes>)
    requires parts != [] && Parts(parts) != []
    ensures |Join(Parts(parts))| <= |Join(parts)|
    ensures |Join(Parts(parts))| == |Join(parts)| ==> Parts(parts) == parts
  {
    hide Join, Parts;
    var init, last := parts[..|parts| - 1], parts[|parts| - 1];
    assert parts == init + [last];
    PartsLast(init, last);
    if init == [] {
      NoParts();
      assert Parts(parts) == parts;
    } else {
      JoinLast(init, last);
      if Parts(init) != [] {
        PartsShorter(init);
        JoinLast(Parts(init), last);
      } else {
        JoinOne(last);
        assert Parts(parts) == [last];
      }
    }
  }

  lemma NoParts()
    ensures Parts([]) == []
  {
  }

  lemma PartsLast(init: seq<Bytes>, last: Bytes)
    ensures Parts(init + [last]) == if last == [] || last == [DOT] then Parts(init) else Parts(init) + [last]
  {
    assert (init + [last])[..|init|] == init;
  }

  lemma JoinLast(init: seq<Bytes>, last: Bytes)
    requires init != []
    ensures Join(init + [last]) == Join(init) + [SLASH] + last
  {
    assert (init + [last])[..|init|] == init;
  }

  lemma JoinOne(last: Bytes)
    ensures Join([last]) == last
  {
  }

  lemma {:induction false} SplitHead(s: Bytes)
    requires s != [] && s[0] == SLASH
    ensures Split(s)[0] == [] && |Split(s)| > 1
  {
    if |s| == 1 {
      assert s[..0] == [];
      assert Split(s[..0]) == [[]];
    } else {
      assert s[..|s| - 1][0] == SLASH;
      SplitHead(s[..|s| - 1]);
    }
  }

  predicate Canonical(parts: seq<Bytes>) {
    forall i :: 0 <= i < |parts| ==> parts[i] != [] && parts[i] != [DOT] && parts[i] != [DOT, DOT]
  }

  /// A path passes exactly when none of its components is empty, "." or "..", or when it
  /// is "." itself.
  lemma PathAcceptedExactly(s: Bytes)
    ensures PathAccepted(s) <==> s == [DOT] || Canonical(Split(s))
  {
    hide Split, Join, Parts;
    var parts := Split(s);
    JoinSplit(s);
    PartsClean(parts);
    if s != [] && s[0] == SLASH {
      SplitHead(s);
      assert parts[0] == [] && !Canonical(parts);
    }
    if s == [] {
      EmptyPath();
      assert parts[0] == [] && !Canonical(parts);
    }
    if s == [DOT] {
      DotPath();
    }
    if Parts(parts) != [] {
      PartsShorter(parts);
      assert AsPosix(s) == Join(Parts(parts));
    } else {
      assert !Canonical(parts);
    }
  }

  lemma EmptyPath()
    ensures Split([]) == [[]]
  {
  }

  lemma DotPath()
    ensures Parts(Split([DOT])) == []
  {
    var s := [DOT];
    assert s[..0] == [];
    EmptyPath();
    assert Split(s) == Split(s[..0])[..0] + [Split(s[..0])[0] + [DOT]];
    assert |Split(s)| == 1 && Split(s)[0] == [DOT];
    assert Split(s) == [[DOT]];
    assert [[DOT]][..0] == [];
    assert Parts([[DOT]][..0]) == [];
  }

  predicate AllowlistAccepted(paths: seq<Bytes>) {
    paths != [] && Distinct(paths) && forall i :: 0 <= i < |paths| ==> PathAccepted(paths[i])
  }

  method ValidateAllowlist(paths: seq<Bytes>) returns (accepted: bool)
    ensures accepted <==> AllowlistAccepted(paths)
  {
    hide PathAccepted;
    DistinctExactly(paths);
    if paths == [] || |paths| != |Elements(paths)| {
      return false;
    }
    for i := 0 to |paths|
      invariant forall k :: 0 <= k < i ==> PathAccepted(paths[k])
    {
      if !PathAccepted(paths[i]) {
        return false;
      }
    }
    return true;
  }

  // ---------------------------------------------------------------- feeding the hash

  // What has been fed to the hash so far.
  class Digest {
    var stream: Bytes

    constructor ()
      ensures stream == []
    {
      stream := [];
    }

    method Update(value: Bytes)
      modifies this
      ensures stream == old(stream) + value
    {
      stream := stream + value;
    }

    method UpdateFrame(value: Bytes) returns (ok: bool)
      modifies this
      ensures ok <==> Fits(value)
      ensures stream == if ok then old(stream) + Frame(value) else old(stream)
    {
      if |value| >= Capacity(WIDTH) {
        return false;
      }
      Update(ToBytes(|value|, WIDTH));
      Update(value);
      assert stream == old(stream) + (ToBytes(|value|, WIDTH) + value);
      return true;
    }

    method UpdateFile(path: Bytes, content: Bytes) returns (ok: bool)
      modifies this
      ensures ok <==> FileFits(File(path, content))
      ensures ok ==> stream == old(stream) + Frame(path) + Frame(content)
    {
      hide Frame, Fits;
      ok := UpdateFrame(path);
      if ok {
        ok := UpdateFrame(content);
      }
    }

    method UpdateFiles(paths: seq<Bytes>, contents: seq<Bytes>) returns (ok: bool)
      requires |contents| == |paths|
      modifies this
      ensures ok <==> AllFilesFit(Files(paths, contents))
      ensures ok ==> stream == old(stream) + EncodeFiles(Files(paths, contents))
    {
      hide FileFits, EncodeFiles, Frame;
      ghost var files := Files(paths, contents);
      NoFiles();
      var i := 0;
      while i < |paths|
        invariant 0 <= i <= |paths|
        invariant AllFilesFit(files[..i])
        invariant stream == old(stream) + EncodeFiles(files[..i])
      {
        ok := UpdateFile(paths[i], contents[i]);
        if !ok {
          assert !FileFits(files[i]);
          return false;
        }
        assert files[..i + 1] == files[..i] + [files[i]];
        OneMore(files[..i], files[i]);
        i := i + 1;
      }
      assert files[..|paths|] == files;
      return true;
    }
  }

  // File identities before and after reading; equal ones mean one stable snapshot.
  type Identities = seq<nat>

  function Files(paths: seq<Bytes>, contents: seq<Bytes>): (r: seq<File>)
    requires |paths| == |contents|
    ensures |r| == |paths| && forall i :: 0 <= i < |r| ==> r[i] == File(paths[i], contents[i])
  {
    seq(|paths|, i requires 0 <= i < |paths| => File(paths[i], contents[i]))
  }

  /// The digest of an allowlist is the digest of the encoding of exactly these files, or
  /// one of the refusals.
  method AllowlistedStream(domain: Bytes, paths: seq<Bytes>, before: Identities, contents: seq<Bytes>,
      after: Identities)
    returns (r: Result<Bytes, ProvenanceError>)
    requires |contents| == |paths|
    ensures r.Ok? <==> AllowlistAccepted(paths) && before == after && AllFit(domain, Files(paths, contents))
    ensures r.Ok? ==> AllFit(domain, Files(paths, contents)) && r.value == Encode(domain, Files(paths, contents))
    ensures r == Err(BadAllowlist) <==> !AllowlistAccepted(paths)
  {
    hide AllowlistAccepted, Frame, ToBytes, Capacity, Fits, EncodeFiles;
    var accepted := ValidateAllowlist(paths);
    if !accepted {
      return Err(BadAllowlist);
    }
    var digest := new Digest();
    var ok := digest.UpdateFrame(domain);
    if !ok || |paths| >= Capacity(WIDTH) {
      return Err(TooLarge);
    }
    digest.Update(ToBytes(|paths|, WIDTH));
    if before != after {
      return Err(UnstableSnapshot);
    }
    var fed := digest.UpdateFiles(paths, contents);
    if !fed {
      return Err(TooLarge);
    }
    return Ok(digest.stream);
  }

  lemma OneMore(files: seq<File>, f: File)
    requires FileFits(f) && AllFilesFit(files)
    ensures AllFilesFit(files + [f])
    ensures EncodeFiles(files + [f]) == EncodeFiles(files) + Frame(f.path) + Frame(f.content)
  {
    hide Frame;
    var all := files + [f];
    assert all[..|all| - 1] == files && FileFits(all[|all| - 1]);
  }
}
