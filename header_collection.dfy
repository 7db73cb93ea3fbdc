/** Collecting the headers to bind: `headers_inside` filters one directory
    listing, `base_headers` concatenates four of them. */
module HeaderCollection {
  import opened Wrappers
  import opened Paths
  import opened HeaderPolicy

  /** One entry of a directory listing: its file name and whether it is a
      regular file. */
  datatype DirEntry = DirEntry(name: Component, isFile: bool)

  /** The listings of the four directories `base_headers` reads, in the order
      it reads them: `include`, `include/util`, `include/sys`, `include/avr`. */
  datatype IncludeTree = IncludeTree(root: seq<DirEntry>, util: seq<DirEntry>, sys: seq<DirEntry>, avr: seq<DirEntry>)

  /** The path `read_dir` gives an entry of `dir`. */
  function EntryPath(dir: Path, e: DirEntry): (r: Path)
    ensures |r| == |dir| + 1 && r[..|dir|] == dir
  {
    dir + [e.name]
  }

  /** `headers_inside` keeps an entry when it is a regular file, its extension
      is exactly `h`, and the header is not excluded. */
  predicate IsCollected(dir: Path, e: DirEntry, libc: Path, mcu: Option<string>)
  {
    e.isFile && Extension(EntryPath(dir, e)) == Some("h") && !IsHeaderBlacklisted(EntryPath(dir, e), libc, mcu)
  }

  /** The headers `headers_inside` returns for `listing`, in listing order. */
  function Collected(dir: Path, listing: seq<DirEntry>, libc: Path, mcu: Option<string>): (r: seq<Path>)
    ensures |r| <= |listing|
    ensures forall p :: p in r ==>
      exists i :: 0 <= i < |listing| && p == EntryPath(dir, listing[i]) && IsCollected(dir, listing[i], libc, mcu)
    ensures forall i :: 0 <= i < |listing| && IsCollected(dir, listing[i], libc, mcu) ==>
      EntryPath(dir, listing[i]) in r
  {
    if listing == [] then []
    else
      var init := listing[..|listing| - 1];
      var last := listing[|listing| - 1];
      assert forall i :: 0 <= i < |init| ==> init[i] == listing[i];
      Collected(dir, init, libc, mcu) + (if IsCollected(dir, last, libc, mcu) then [EntryPath(dir, last)] else [])
  }

  /** Filtering keeps listing order: collecting two listings one after the
      other is collecting their concatenation. */
  lemma {:induction false} CollectedAppend(dir: Path, xs: seq<DirEntry>, ys: seq<DirEntry>, libc: Path, mcu: Option<string>)
    ensures Collected(dir, xs + ys, libc, mcu) == Collected(dir, xs, libc, mcu) + Collected(dir, ys, libc, mcu)
  {
    if ys == [] {
      assert xs + ys == xs;
    } else {
      var init := ys[..|ys| - 1];
      assert (xs + ys)[..|xs + ys| - 1] == xs + init;
      CollectedAppend(dir, xs, init, libc, mcu);
    }
  }

  /** A single entry is collected exactly when it passes the filter. */
  lemma CollectedOne(dir: Path, e: DirEntry, libc: Path, mcu: Option<string>)
    ensures Collected(dir, [e], libc, mcu) == if IsCollected(dir, e, libc, mcu) then [EntryPath(dir, e)] else []
  {
  }

  /** `headers_inside`: walks the listing of `dir` and pushes every header that
      passes the filter. */
  method HeadersInside(dir: Path, listing: seq<DirEntry>, libc: Path, mcu: Option<string>) returns (headers: seq<Path>)
    ensures headers == Collected(dir, listing, libc, mcu)
  {
    headers := [];
    for i := 0 to |listing|
      invariant headers == Collected(dir, listing[..i], libc, mcu)
    {
      var entry := listing[i];
      var path := dir + [entry.name];
      if entry.isFile {
        match Extension(path)
        case Some(ext) =>
          if ext == "h" && !IsHeaderBlacklisted(path, libc, mcu) {
            headers := headers + [path];
          }
        case None =>
      }
      assert listing[..i + 1][..i] == listing[..i];
    }
    assert listing[..|listing|] == listing;
  }

  /** The four directories `base_headers` reads. */
  function UtilDir(libc: Path): Path { IncludeDir(libc) + ["util"] }
  function SysDir(libc: Path): Path { IncludeDir(libc) + ["sys"] }
  function AvrDir(libc: Path): Path { IncludeDir(libc) + ["avr"] }

  /** What `base_headers` returns: the headers of `include`, `include/util`,
      `include/sys` and `include/avr`, in that order. */
  function BaseHeaderList(libc: Path, tree: IncludeTree, mcu: Option<string>): seq<Path>
  {
    Collected(IncludeDir(libc), tree.root, libc, mcu)
    + Collected(UtilDir(libc), tree.util, libc, mcu)
    + Collected(SysDir(libc), tree.sys, libc, mcu)
    + Collected(AvrDir(libc), tree.avr, libc, mcu)
  }

  /** `base_headers`: extends one vector with each directory's headers. */
  method BaseHeaders(libc: Path, tree: IncludeTree, mcu: Option<string>) returns (headers: seq<Path>)
    ensures headers == BaseHeaderList(libc, tree, mcu)
  {
    var includeDir := libc + ["include"];
    headers := [];
    var found := HeadersInside(includeDir, tree.root, libc, mcu);
    headers := headers + found;
    found := HeadersInside(includeDir + ["util"], tree.util, libc, mcu);
    headers := headers + found;
    found := HeadersInside(includeDir + ["sys"], tree.sys, libc, mcu);
    headers := headers + found;
    found := HeadersInside(includeDir + ["avr"], tree.avr, libc, mcu);
    headers := headers + found;
  }

  /** Every header collected from `dir` is a `.h` file directly inside `dir`
      and is not excluded. */
  lemma CollectedSound(dir: Path, listing: seq<DirEntry>, libc: Path, mcu: Option<string>)
    ensures forall p :: p in Collected(dir, listing, libc, mcu) ==>
      && Extension(p) == Some("h")
      && !IsHeaderBlacklisted(p, libc, mcu)
      && p != [] && p[..|p| - 1] == dir
  {
  }

  /** Every collected header is a `.h` file directly inside one of the four
      directories and is not excluded. */
  lemma {:induction false} BaseHeadersSound(libc: Path, tree: IncludeTree, mcu: Option<string>)
    ensures forall p :: p in BaseHeaderList(libc, tree, mcu) ==>
      && Extension(p) == Some("h")
      && !IsHeaderBlacklisted(p, libc, mcu)
      && p != []
      && p[..|p| - 1] in [IncludeDir(libc), UtilDir(libc), SysDir(libc), AvrDir(libc)]
  {
    CollectedSound(IncludeDir(libc), tree.root, libc, mcu);
    CollectedSound(UtilDir(libc), tree.util, libc, mcu);
    CollectedSound(SysDir(libc), tree.sys, libc, mcu);
    CollectedSound(AvrDir(libc), tree.avr, libc, mcu);
  }

  /** Every entry of the four listings that passes the filter is collected. */
  lemma BaseHeadersComplete(libc: Path, tree: IncludeTree, mcu: Option<string>)
    ensures forall e :: e in tree.root && IsCollected(IncludeDir(libc), e, libc, mcu) ==>
      EntryPath(IncludeDir(libc), e) in BaseHeaderList(libc, tree, mcu)
    ensures forall e :: e in tree.util && IsCollected(UtilDir(libc), e, libc, mcu) ==>
      EntryPath(UtilDir(libc), e) in BaseHeaderList(libc, tree, mcu)
    ensures forall e :: e in tree.sys && IsCollected(SysDir(libc), e, libc, mcu) ==>
      EntryPath(SysDir(libc), e) in BaseHeaderList(libc, tree, mcu)
    ensures forall e :: e in tree.avr && IsCollected(AvrDir(libc), e, libc, mcu) ==>
      EntryPath(AvrDir(libc), e) in BaseHeaderList(libc, tree, mcu)
  {
  }

  /** No `io*` file, and no blacklisted header such as `util/delay.h`, is ever
      collected, whatever the microcontroller. */
  lemma NeverCollected(libc: Path, tree: IncludeTree, mcu: Option<string>)
    ensures forall p :: p in BaseHeaderList(libc, tree, mcu) ==> !HasIoStem(p)
    ensures forall rel :: rel in HeaderBlacklist ==> IncludeDir(libc) + rel !in BaseHeaderList(libc, tree, mcu)
  {
  }

  /** A device-specific file `<sub>/<stem>.h` listed as a regular file is
      collected from its directory exactly when a microcontroller is known. */
  lemma {:induction false} DeviceHeaderCollectedIffMcu(
    libc: Path, sub: Component, stem: string, listing: seq<DirEntry>, mcu: Option<string>)
    requires stem != [] && [sub, stem + ".h"] in DeviceSpecificHeaders
    requires DirEntry(stem + ".h", true) in listing
    ensures IncludeDir(libc) + [sub, stem + ".h"] in Collected(IncludeDir(libc) + [sub], listing, libc, mcu)
      <==> mcu.Some?
  {
    var dir := IncludeDir(libc) + [sub];
    var e := DirEntry(stem + ".h", true);
    HeaderFileParts(dir, stem);
    assert EntryPath(dir, e) == IncludeDir(libc) + [sub, stem + ".h"];
    DeviceSpecificExcludedIffNoMcu(libc, [sub, stem + ".h"], mcu);
    CollectedSound(dir, listing, libc, mcu);
  }

  /** A header directly inside `dir` is never collected from another
      directory. */
  lemma ChildNotCollectedElsewhere(dir: Path, other: Path, listing: seq<DirEntry>, libc: Path, mcu: Option<string>, name: Component)
    requires dir != other
    ensures dir + [name] !in Collected(other, listing, libc, mcu)
  {
  }

  /** Distinct sub-directories of `include` are distinct paths. */
  lemma SubdirsDistinct(libc: Path, a: Component, b: Component)
    requires a != b
    ensures IncludeDir(libc) + [a] != IncludeDir(libc) + [b]
  {
    assert (IncludeDir(libc) + [a])[|libc| + 1] == a;
    assert (IncludeDir(libc) + [b])[|libc| + 1] == b;
  }

  /** Headers collected from different directories differ, so a header from
      `include/avr` is in the whole list exactly when `include/avr` yields
      it, and likewise for `include/util`. */
  lemma {:induction false} BaseHeadersByDirectory(libc: Path, tree: IncludeTree, mcu: Option<string>, name: Component)
    ensures AvrDir(libc) + [name] in BaseHeaderList(libc, tree, mcu) <==>
      AvrDir(libc) + [name] in Collected(AvrDir(libc), tree.avr, libc, mcu)
    ensures UtilDir(libc) + [name] in BaseHeaderList(libc, tree, mcu) <==>
      UtilDir(libc) + [name] in Collected(UtilDir(libc), tree.util, libc, mcu)
  {
    SubdirsDistinct(libc, "avr", "util");
    SubdirsDistinct(libc, "avr", "sys");
    SubdirsDistinct(libc, "util", "sys");
    ChildNotCollectedElsewhere(AvrDir(libc), IncludeDir(libc), tree.root, libc, mcu, name);
    ChildNotCollectedElsewhere(AvrDir(libc), UtilDir(libc), tree.util, libc, mcu, name);
    ChildNotCollectedElsewhere(AvrDir(libc), SysDir(libc), tree.sys, libc, mcu, name);
    ChildNotCollectedElsewhere(UtilDir(libc), IncludeDir(libc), tree.root, libc, mcu, name);
    ChildNotCollectedElsewhere(UtilDir(libc), SysDir(libc), tree.sys, libc, mcu, name);
    ChildNotCollectedElsewhere(UtilDir(libc), AvrDir(libc), tree.avr, libc, mcu, name);
  }

  /** `avr/sleep.h`, `avr/boot.h` and `util/crc16.h`, listed as regular files,
      are collected exactly when a microcontroller is known. */
  lemma {:induction false} DeviceSpecificCollectedIffMcu(libc: Path, tree: IncludeTree, mcu: Option<string>)
    ensures DirEntry("sleep.h", true) in tree.avr ==>
      (AvrDir(libc) + ["sleep.h"] in BaseHeaderList(libc, tree, mcu) <==> mcu.Some?)
    ensures DirEntry("boot.h", true) in tree.avr ==>
      (AvrDir(libc) + ["boot.h"] in BaseHeaderList(libc, tree, mcu) <==> mcu.Some?)
    ensures DirEntry("crc16.h", true) in tree.util ==>
      (UtilDir(libc) + ["crc16.h"] in BaseHeaderList(libc, tree, mcu) <==> mcu.Some?)
  {
    BaseHeadersByDirectory(libc, tree, mcu, "sleep.h");
    BaseHeadersByDirectory(libc, tree, mcu, "boot.h");
    BaseHeadersByDirectory(libc, tree, mcu, "crc16.h");
    assert AvrDir(libc) + ["sleep.h"] == IncludeDir(libc) + ["avr", "sleep.h"];
    assert AvrDir(libc) + ["boot.h"] == IncludeDir(libc) + ["avr", "boot.h"];
    assert UtilDir(libc) + ["crc16.h"] == IncludeDir(libc) + ["util", "crc16.h"];
    assert "sleep" + ".h" == "sleep.h" && "boot" + ".h" == "boot.h" && "crc16" + ".h" == "crc16.h";
    assert DeviceSpecificHeaders == [["avr", "boot.h"], ["avr", "sleep.h"], ["util", "crc16.h"]];
    if DirEntry("sleep.h", true) in tree.avr {
      DeviceHeaderCollectedIffMcu(libc, "avr", "sleep", tree.avr, mcu);
    }
    if DirEntry("boot.h", true) in tree.avr {
      DeviceHeaderCollectedIffMcu(libc, "avr", "boot", tree.avr, mcu);
    }
    if DirEntry("crc16.h", true) in tree.util {
      DeviceHeaderCollectedIffMcu(libc, "util", "crc16", tree.util, mcu);
    }
  }

  /** With a microcontroller known, listed `avr/sleep.h` and `util/crc16.h`
      are collected, while `util/delay.h` and `io*` headers never are. */
  lemma {:induction false} McuHeaders(libc: Path, tree: IncludeTree, name: string)
    requires DirEntry("sleep.h", true) in tree.avr && DirEntry("crc16.h", true) in tree.util
    ensures AvrDir(libc) + ["sleep.h"] in BaseHeaderList(libc, tree, Some(name))
    ensures UtilDir(libc) + ["crc16.h"] in BaseHeaderList(libc, tree, Some(name))
    ensures IncludeDir(libc) + ["util", "delay.h"] !in BaseHeaderList(libc, tree, Some(name))
    ensures forall p :: p in BaseHeaderList(libc, tree, Some(name)) ==> !HasIoStem(p)
  {
    DeviceSpecificCollectedIffMcu(libc, tree, Some(name));
    NeverCollected(libc, tree, Some(name));
    assert ["util", "delay.h"] in HeaderBlacklist;
  }

  /** No two entries of a listing share a name, as with `read_dir`. */
  predicate DistinctNames(listing: seq<DirEntry>)
  {
    forall i, j :: 0 <= i < j < |listing| ==> listing[i].name != listing[j].name
  }

  /** No header occurs twice in a sequence. */
  predicate NoDuplicates(headers: seq<Path>)
  {
    forall i, j :: 0 <= i < j < |headers| ==> headers[i] != headers[j]
  }

  /** A listing without repeated names yields each header once. */
  lemma {:induction false} CollectedNoDuplicates(dir: Path, listing: seq<DirEntry>, libc: Path, mcu: Option<string>)
    requires DistinctNames(listing)
    ensures NoDuplicates(Collected(dir, listing, libc, mcu))
  {
    if listing != [] {
      var init := listing[..|listing| - 1];
      var last := listing[|listing| - 1];
      CollectedNoDuplicates(dir, init, libc, mcu);
      var p := EntryPath(dir, last);
      forall q | q in Collected(dir, init, libc, mcu)
        ensures q != p
      {
        var i :| 0 <= i < |init| && q == EntryPath(dir, init[i]);
        assert q[|dir|] == init[i].name && p[|dir|] == last.name;
      }
      ConcatNoDuplicates(Collected(dir, init, libc, mcu), if IsCollected(dir, last, libc, mcu) then [p] else []);
    }
  }

  /** Headers collected from two different directories are different. */
  lemma CollectedApart(d1: Path, l1: seq<DirEntry>, d2: Path, l2: seq<DirEntry>, libc: Path, mcu: Option<string>)
    requires d1 != d2
    ensures forall p :: p in Collected(d1, l1, libc, mcu) ==> p !in Collected(d2, l2, libc, mcu)
  {
  }

  /** Sequences without duplicates whose elements are pairwise apart
      concatenate to one without duplicates. */
  lemma ConcatNoDuplicates(a: seq<Path>, b: seq<Path>)
    requires NoDuplicates(a) && NoDuplicates(b)
    requires forall p :: p in a ==> p !in b
    ensures NoDuplicates(a + b)
  {
    forall i, j | 0 <= i < j < |a + b|
      ensures (a + b)[i] != (a + b)[j]
    {
      if i < |a| && j >= |a| {
        assert (a + b)[i] in a && (a + b)[j] in b;
      }
    }
  }

  /** `base_headers` never names a header twice when the listings repeat no
      name. */
  lemma {:induction false} BaseHeadersNoDuplicates(libc: Path, tree: IncludeTree, mcu: Option<string>)
    requires DistinctNames(tree.root) && DistinctNames(tree.util) && DistinctNames(tree.sys) && DistinctNames(tree.avr)
    ensures NoDuplicates(BaseHeaderList(libc, tree, mcu))
  {
    var i, u, y, a := IncludeDir(libc), UtilDir(libc), SysDir(libc), AvrDir(libc);
    var ci := Collected(i, tree.root, libc, mcu);
    var cu := Collected(u, tree.util, libc, mcu);
    var cy := Collected(y, tree.sys, libc, mcu);
    var ca := Collected(a, tree.avr, libc, mcu);
    CollectedNoDuplicates(i, tree.root, libc, mcu);
    CollectedNoDuplicates(u, tree.util, libc, mcu);
    CollectedNoDuplicates(y, tree.sys, libc, mcu);
    CollectedNoDuplicates(a, tree.avr, libc, mcu);
    SubdirsDistinct(libc, "util", "sys");
    SubdirsDistinct(libc, "util", "avr");
    SubdirsDistinct(libc, "sys", "avr");
    assert |i| != |u| && |i| != |y| && |i| != |a|;
    CollectedApart(i, tree.root, u, tree.util, libc, mcu);
    ConcatNoDuplicates(ci, cu);
    CollectedApart(i, tree.root, y, tree.sys, libc, mcu);
    CollectedApart(u, tree.util, y, tree.sys, libc, mcu);
    ConcatNoDuplicates(ci + cu, cy);
    CollectedApart(i, tree.root, a, tree.avr, libc, mcu);
    CollectedApart(u, tree.util, a, tree.avr, libc, mcu);
    CollectedApart(y, tree.sys, a, tree.avr, libc, mcu);
    ConcatNoDuplicates(ci + cu + cy, ca);
  }
}
