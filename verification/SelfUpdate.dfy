/**
 Installing a release over the running binary.

 The network, the signature check, the hash, and whether each file operation works
 are given; what is modelled is which of them are asked, in what order, and what is
 on disk at every exit.
 */
module SelfUpdate {
  import opened Wrappers
  import Packets
  import opened Text
  import opened Versions
  import Checksums

  type Bytes = seq<Packets.byte>

  /** Everything outside the agent that one call meets. */
  datatype World = World(
    enabled: bool, // the build has a key
    latest: Option<string>,
    sums: Option<string>,
    signature: Option<string>,
    keyReads: bool,
    signs: (string, string) -> bool,
    asset: string,
    binary: Option<string>, // the path of the running binary, links resolved
    answers: bool,
    opens: bool,
    body: Bytes,
    breaksAfter: Option<nat>,
    closes: bool,
    sha256: Bytes -> Bytes,
    runs: Bytes -> Option<string>, // what a binary prints when asked its version
    renames: bool,
    removes: bool)

  /** The hash is 32 bytes long. */
  ghost predicate Hashes(w: World) {
    forall b :: |w.sha256(b)| == 32
  }

  datatype Outcome =
    | Installed
    | NoKey | NoLatest | UnknownVersion | NotNewer | NoSums | NoSignature | NotSigned | NoAsset | NoBinary
    | DownloadFailed | WrongDigest | Panicked | SelfTestFailed | RenameFailed

  const LIMIT := 0x800_0000

  /** What of the body is written, all being well. */
  function Received(w: World): Bytes {
    if |w.body| <= LIMIT then w.body else w.body[..LIMIT]
  }

  function Partial(w: World): Bytes
    requires w.breaksAfter.Some?
  {
    if w.breaksAfter.value <= |Received(w)| then Received(w)[..w.breaksAfter.value] else Received(w)
  }

  /** The files once the download has come as far as it does. */
  function Fetched(w: World, files: map<string, Bytes>, dest: string): map<string, Bytes> {
    if !w.answers || !w.opens then files
    else if w.breaksAfter.Some? then files[dest := Partial(w)]
    else files[dest := Received(w)]
  }

  function Temporary(path: string): (r: string)
    ensures r != path
  {
    path + ".new"
  }

  function Chosen(w: World, target: string): Option<string> {
    if target == "" || target == "latest" then w.latest else Some(target)
  }

  /** The checks before anything is fetched, and which of them speaks first. */
  function VersionRefusal(w: World, target: string, current: string): Option<Outcome> {
    if !w.enabled then Some(NoKey)
    else if Chosen(w, target).None? then Some(NoLatest)
    else if current == "dev" || ParseVersion(current).None? then Some(UnknownVersion)
    else if !Newer(Chosen(w, target).value, current) then Some(NotNewer)
    else None
  }

  /** The checks before anything is written. */
  function ReleaseRefusal(w: World): Option<Outcome> {
    if w.sums.None? then Some(NoSums)
    else if w.signature.None? then Some(NoSignature)
    else if !w.keyReads then Some(NoKey)
    else if !w.signs(w.sums.value, w.signature.value) then Some(NotSigned)
    else if Checksums.DigestOf(w.sums.value, w.asset).None? then Some(NoAsset)
    else if w.binary.None? then Some(NoBinary)
    else None
  }

  function Refusal(w: World, target: string, current: string): Option<Outcome> {
    if VersionRefusal(w, target, current).Some? then VersionRefusal(w, target, current) else ReleaseRefusal(w)
  }

  lemma RefusalWritesNothing(w: World, target: string, current: string)
    ensures Refusal(w, target, current).Some? ==> WroteNothing(Refusal(w, target, current).value)
    ensures Refusal(w, target, current).None? ==> ReleaseRefusal(w).None? && Chosen(w, target).Some? && Newer(Chosen(w, target).value, current)
  {
  }

  lemma ReleaseAccepted(w: World)
    requires ReleaseRefusal(w).None?
    ensures w.sums.Some? && w.signature.Some? && w.signs(w.sums.value, w.signature.value)
    ensures Checksums.DigestOf(w.sums.value, w.asset).Some? && w.binary.Some?
  {
  }

  function Want(w: World): string
    requires ReleaseRefusal(w).None?
  {
    Checksums.DigestOf(w.sums.value, w.asset).value
  }

  predicate Arrives(w: World) {
    w.answers && w.opens && w.breaksAfter.None? && w.closes
  }

  function Digest(w: World, b: Bytes): string {
    HexEncode(w.sha256(b))
  }

  lemma DigestLength(w: World, b: Bytes)
    requires Hashes(w)
    ensures |Digest(w, b)| == 64
  {
    HexRoundTrip(w.sha256(b));
  }

  lemma FetchedIsTemporary(w: World, files: map<string, Bytes>, tmp: string)
    ensures Fetched(w, files, tmp) - {tmp} == files - {tmp}
    ensures Arrives(w) ==> tmp in Fetched(w, files, tmp) && Fetched(w, files, tmp)[tmp] == Received(w)
  {
  }

  predicate PassesSelfTest(w: World, b: Bytes, target: string) {
    w.runs(b).Some? && Trim(w.runs(b).value) == target
  }

  /** The release asked for: the newest for no name or for "latest", and else that one. */
  predicate Asked(w: World, target: string, tag: string) {
    if target == "" || target == "latest" then w.latest == Some(tag) else tag == target
  }

  /** What it takes for a release to be installed: the build can check signatures, the
      release is newer than a version that can be read, its list is signed by the trusted
      key and names the asset, what arrives whole hashes to what the list says and reports
      the release when run, and it can be put in place. */
  predicate Deserves(w: World, target: string, current: string) {
    && w.enabled && w.keyReads
    && Chosen(w, target).Some? && Asked(w, target, Chosen(w, target).value)
    && current != "dev" && ParseVersion(current).Some? && Newer(Chosen(w, target).value, current)
    && w.sums.Some? && w.signature.Some? && w.signs(w.sums.value, w.signature.value)
    && w.binary.Some?
    && w.answers && w.opens && w.breaksAfter.None? && w.closes
    && Checksums.DigestOf(w.sums.value, w.asset) == Some(HexEncode(w.sha256(Received(w))))
    && w.runs(Received(w)).Some? && Trim(w.runs(Received(w)).value) == Chosen(w, target).value
    && w.renames
  }

  /** The checks pass exactly when all that is asked before the download is so. */
  lemma NotRefusedExactly(w: World, target: string, current: string)
    ensures Refusal(w, target, current).None? <==>
              && w.enabled && w.keyReads
              && Chosen(w, target).Some? && current != "dev" && ParseVersion(current).Some? && Newer(Chosen(w, target).value, current)
              && w.sums.Some? && w.signature.Some? && w.signs(w.sums.value, w.signature.value)
              && Checksums.DigestOf(w.sums.value, w.asset).Some? && w.binary.Some?
  {
  }

  lemma ChosenIsAsked(w: World, target: string, tag: string)
    ensures Chosen(w, target) == Some(tag) <==> Asked(w, target, tag)
  {
  }

  /** What each refusal says. */
  lemma RefusalsMean(w: World, target: string, current: string)
    ensures Refusal(w, target, current) == Some(UnknownVersion) <==>
              w.enabled && Chosen(w, target).Some? && (current == "dev" || ParseVersion(current).None?)
    ensures Refusal(w, target, current) == Some(NotNewer) <==>
              w.enabled && Chosen(w, target).Some? && current != "dev" && ParseVersion(current).Some? && !Newer(Chosen(w, target).value, current)
  {
  }

  /** And before any version is looked at. */
  lemma FirstRefusalsMean(w: World, target: string, current: string)
    ensures !w.enabled ==> Refusal(w, target, current) == Some(NoKey)
    ensures Refusal(w, target, current) == Some(NoLatest) <==> w.enabled && (target == "" || target == "latest") && w.latest.None?
  {
  }

  /** And of a release that is newer. */
  lemma FetchRefusalsMean(w: World)
    ensures ReleaseRefusal(w) == Some(NoSums) <==> w.sums.None?
    ensures ReleaseRefusal(w) == Some(NoSignature) <==> w.sums.Some? && w.signature.None?
    ensures ReleaseRefusal(w) == Some(NoKey) <==> w.sums.Some? && w.signature.Some? && !w.keyReads
  {
  }

  /** And of a release that could be fetched whole with a key that reads. */
  lemma ReleaseRefusalsMean(w: World)
    requires w.sums.Some? && w.signature.Some? && w.keyReads
    ensures ReleaseRefusal(w) == Some(NotSigned) <==> !w.signs(w.sums.value, w.signature.value)
    ensures w.signs(w.sums.value, w.signature.value) ==>
              && (ReleaseRefusal(w) == Some(NoAsset) <==> Checksums.DigestOf(w.sums.value, w.asset).None?)
              && (ReleaseRefusal(w) == Some(NoBinary) <==> Checksums.DigestOf(w.sums.value, w.asset).Some? && w.binary.None?)
  {
  }

  /** Apart from its size nothing is taken from what was served: all of it up to 128
      mebibytes, and those of anything longer. */
  lemma ReceivedIsServed(w: World)
    ensures |w.body| <= 134_217_728 ==> Received(w) == w.body
    ensures |w.body| > 134_217_728 ==> Received(w) == w.body[..134_217_728]
  {
  }

  /** What a failing exit leaves: the files as they were and no temporary one, unless it
      could not be removed or the exit never got to removing it. */
  function LeftBehind(w: World, files: map<string, Bytes>, tmp: string, r: Outcome): map<string, Bytes> {
    if w.removes && !r.Panicked? then files - {tmp} else Fetched(w, files, tmp)
  }

  /** Whatever is left, everything but the temporary file is as it was. */
  lemma OnlyTheTemporary(w: World, files: map<string, Bytes>, tmp: string, r: Outcome, path: string)
    requires path != tmp
    ensures path in LeftBehind(w, files, tmp, r) <==> path in files
    ensures path in files ==> LeftBehind(w, files, tmp, r)[path] == files[path]
    ensures tmp in LeftBehind(w, files, tmp, r) ==> tmp in files || ((!w.removes || r.Panicked?) && w.answers && w.opens)
  {
  }

  predicate WroteNothing(r: Outcome) {
    !(r.Installed? || r.DownloadFailed? || r.WrongDigest? || r.Panicked? || r.SelfTestFailed? || r.RenameFailed?)
  }

  method CheckVersion(w: World, target: string, current: string) returns (r: Option<Outcome>)
    ensures r == VersionRefusal(w, target, current)
  {
    if !w.enabled {
      return Some(NoKey);
    }
    var tag := target;
    if target == "" || target == "latest" {
      if w.latest.None? {
        return Some(NoLatest);
      }
      tag := w.latest.value;
    }
    var known := Parse(current);
    if current == "dev" || known.None? {
      return Some(UnknownVersion);
    }
    var isNewer := IsNewer(tag, current);
    return if isNewer then None else Some(NotNewer);
  }

  method CheckRelease(w: World) returns (r: Option<Outcome>)
    ensures r == ReleaseRefusal(w)
  {
    if w.sums.None? {
      return Some(NoSums);
    }
    if w.signature.None? {
      return Some(NoSignature);
    }
    if !w.keyReads {
      return Some(NoKey);
    }
    if !w.signs(w.sums.value, w.signature.value) {
      return Some(NotSigned);
    }
    var want := Checksums.FindDigest(w.sums.value, w.asset);
    if want.None? {
      return Some(NoAsset);
    }
    return if w.binary.None? then Some(NoBinary) else None;
  }

  class Machine {
    var files: map<string, Bytes>
    var running: string
    /** Every version that has run here, the running one last. */
    ghost var history: seq<string>

    ghost predicate Valid()
      reads this`running, this`history
    {
      history != [] && history[|history| - 1] == running && Climbs(history)
    }

    constructor (files: map<string, Bytes>, version: string)
      ensures Valid() && this.files == files && running == version && history == [version]
    {
      this.files, running, history := files, version, [version];
    }

    /** `download`: nothing but the destination changes, and it is kept only if it hashes
        to what was wanted. */
    method Download(w: World, dest: string, want: string) returns (r: Outcome)
      requires Hashes(w)
      modifies this`files
      ensures files == Fetched(w, old(files), dest)
      ensures r.Installed? || r.DownloadFailed? || r.WrongDigest? || r.Panicked?
      ensures r.DownloadFailed? <==> !Arrives(w)
      ensures r.Installed? <==> Arrives(w) && Digest(w, Received(w)) == want
      ensures r.Panicked? <==> Arrives(w) && |want| < 16
    {
      if !w.answers || !w.opens {
        return DownloadFailed;
      }
      if w.breaksAfter.Some? {
        files := files[dest := Partial(w)];
        return DownloadFailed;
      }
      files := files[dest := Received(w)];
      if !w.closes {
        return DownloadFailed;
      }
      var got := Digest(w, Received(w));
      DigestLength(w, Received(w));
      if got != want {
        // The message quotes the first sixteen characters of both.
        return if |want| < 16 then Panicked else WrongDigest;
      }
      return Installed;
    }

    method Remove(w: World, path: string)
      modifies this`files
      ensures files == if w.removes then old(files) - {path} else old(files)
    {
      if w.removes {
        files := files - {path};
      }
    }

    /** From the download on. */
    method Install(w: World, path: string, target: string, want: string) returns (r: Outcome)
      requires Hashes(w)
      modifies this`files
      ensures !WroteNothing(r)
      ensures !r.Installed? ==> files == LeftBehind(w, old(files), Temporary(path), r)
      ensures r.Installed? <==> Arrives(w) && Digest(w, Received(w)) == want && PassesSelfTest(w, Received(w), target) && w.renames
      ensures r.Installed? ==> files == (old(files) - {Temporary(path)})[path := Received(w)]
      ensures r.Panicked? <==> Arrives(w) && |want| < 16
    {
      var tmp := Temporary(path);
      DigestLength(w, Received(w));
      FetchedIsTemporary(w, files, tmp);
      r := Download(w, tmp, want);
      if r.Panicked? {
        return;
      }
      if !r.Installed? {
        Remove(w, tmp);
        return;
      }
      var out := w.runs(files[tmp]);
      if out.None? || Trim(out.value) != target {
        Remove(w, tmp);
        return SelfTestFailed;
      }
      if !w.renames {
        Remove(w, tmp);
        return RenameFailed;
      }
      files := (files - {tmp})[path := files[tmp]];
    }

    /** `Apply`. */
    method Apply(w: World, target: string, current: string) returns (r: Outcome)
      requires Hashes(w)
      modifies this`files
      ensures Refusal(w, target, current).Some? ==> r == Refusal(w, target, current).value
      ensures WroteNothing(r) <==> Refusal(w, target, current).Some?
      ensures WroteNothing(r) ==> files == old(files)
      ensures !WroteNothing(r) && !r.Installed? ==> files == LeftBehind(w, old(files), Temporary(w.binary.value), r)
      ensures r.Installed? <==> Deserves(w, target, current)
      ensures r.Installed? ==> files == (old(files) - {Temporary(w.binary.value)})[w.binary.value := Received(w)]
      ensures r.Panicked? <==> Refusal(w, target, current).None? && Arrives(w) && |Want(w)| < 16
    {
      RefusalWritesNothing(w, target, current);
      NotRefusedExactly(w, target, current);
      if Chosen(w, target).Some? {
        ChosenIsAsked(w, target, Chosen(w, target).value);
      }
      var refused := CheckVersion(w, target, current);
      if refused.Some? {
        return refused.value;
      }
      refused := CheckRelease(w);
      if refused.Some? {
        return refused.value;
      }
      r := Install(w, w.binary.value, Chosen(w, target).value, Want(w));
    }

    /** The process comes back as what was installed. */
    method Restart(version: string, ghost climbed: seq<string>)
      requires climbed == history + [version] && Climbs(climbed)
      modifies this`running, this`history
      ensures Valid() && running == version && history == climbed
    {
      running := version;
      history := climbed;
    }

    /** Apply, and ask what is now on disk what it is. */
    method Attempt(w: World, target: string, current: string) returns (installed: bool, version: string)
      requires Hashes(w)
      modifies this`files
      ensures installed <==> Deserves(w, target, current)
      ensures installed ==> Chosen(w, target) == Some(version) && Newer(version, current)
    {
      version := "";
      var r := Apply(w, target, current);
      installed := r.Installed?;
      if installed {
        InstalledWasSigned(w, target, current);
        version := Trim(w.runs(files[w.binary.value]).value);
      }
    }

    /** One update asked for, and the restart after it if anything was installed: what
        then runs is what the installed binary says it is. */
    method Update(w: World, target: string) returns (installed: bool)
      requires Valid() && Hashes(w)
      modifies this
      ensures Valid()
      ensures installed <==> Deserves(w, target, old(running))
      ensures installed ==> history == old(history) + [running] && Some(running) == Chosen(w, target)
      ensures !installed ==> history == old(history) && running == old(running)
    {
      var version;
      installed, version := Attempt(w, target, running);
      if installed {
        ClimbsOn(history, version);
        Restart(version, history + [version]);
      }
    }
  }

  /** What was installed was in a list that the trusted key signed, and is newer. */
  lemma InstalledWasSigned(w: World, target: string, current: string)
    requires Deserves(w, target, current)
    ensures w.signs(w.sums.value, w.signature.value)
    ensures Checksums.DigestOf(w.sums.value, w.asset) == Some(Digest(w, Received(w)))
    ensures Newer(Trim(w.runs(Received(w)).value), current)
  {
    RefusalWritesNothing(w, target, current);
    ReleaseAccepted(w);
  }

  /** Over any run of updates no release is installed twice, and none is gone back to. */
  lemma NeverGoesBack(m: Machine, i: nat, j: nat)
    requires m.Valid() && i < j < |m.history|
    ensures ParseVersion(m.history[i]) != ParseVersion(m.history[j]) && !Newer(m.history[i], m.history[j])
  {
    NeverTwice(m.history, i, j);
  }

  /** A list whose digest for this asset is one that sha256sum printed never panics. */
  lemma PrintedListsDoNotPanic(w: World, es: seq<Checksums.Entry>)
    requires Checksums.AllWellFormed(es) && w.sums == Some(Unlines(Checksums.EntryLines(es)))
    requires forall i :: 0 <= i < |es| ==> |es[i].digest| == 64
    ensures ReleaseRefusal(w).None? ==> |Want(w)| == 64
  {
    Checksums.DigestOfPrinted(es, w.asset);
    ListedIsAnEntry(es, w.asset);
  }

  lemma {:induction false} ListedIsAnEntry(es: seq<Checksums.Entry>, name: string)
    ensures Checksums.Listed(es, name).Some? ==> exists i :: 0 <= i < |es| && es[i].name == name && es[i].digest == Checksums.Listed(es, name).value
    decreases |es|
  {
    if es != [] && es[0].name != name {
      ListedIsAnEntry(es[1..], name);
      if Checksums.Listed(es, name).Some? {
        var i :| 0 <= i < |es[1..]| && es[1..][i].name == name && es[1..][i].digest == Checksums.Listed(es[1..], name).value;
        assert es[i + 1] == es[1..][i];
      }
    }
  }
}
