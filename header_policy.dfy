/** Which of avr-libc's headers are handed to the binding generator: the three
    exclusion rules of `is_header_blacklisted` and the two tables they use. */
module HeaderPolicy {
  import opened Wrappers
  import opened Paths

  /** Headers that cannot be used from Rust, relative to `<libc>/include`. */
  const HeaderBlacklist: seq<Path> := [
    ["avr", "crc16.h"], ["avr", "parity.h"], ["avr", "delay.h"], // deprecated, moved to `util`
    ["avr", "signal.h"],                 // deprecated, moved to `avr/interrupt.h`
    ["avr", "wdt.h"],                    // requires MCU-specific constants
    ["stdfix-avrlibc.h"],                // deprecated, `stdfix.h` replaces it
    ["util", "delay.h"], ["util", "delay_basic.h"], // rely on avr-gcc optimisations
    ["util", "setbaud.h"]                // mostly preprocessor magic
  ]

  /** Headers usable only when a microcontroller is known, relative to
      `<libc>/include`. */
  const DeviceSpecificHeaders: seq<Path> := [
    ["avr", "boot.h"],
    ["avr", "sleep.h"],
    ["util", "crc16.h"]
  ]

  /** `<libc>/include`. */
  function IncludeDir(libc: Path): (r: Path)
    ensures |r| == |libc| + 1 && r[..|libc|] == libc && r[|libc|] == "include"
  {
    libc + ["include"]
  }

  /** `is_header_in_list`: whether `path` is `<libc>/include/<entry>` for an
      entry of `list`, scanning the list front to back as `Iterator::any`
      does. */
  function IsHeaderInList(path: Path, libc: Path, list: seq<Path>): (r: bool)
    ensures r <==> exists i :: 0 <= i < |list| && IncludeDir(libc) + list[i] == path
  {
    if list == [] then false
    else if IncludeDir(libc) + list[0] == path then true
    else
      var rest := IsHeaderInList(path, libc, list[1..]);
      assert forall i :: 1 <= i < |list| ==> list[i] == list[1..][i - 1];
      rest
  }

  /** `is_header_device_specific`. */
  predicate IsHeaderDeviceSpecific(path: Path, libc: Path)
  {
    IsHeaderInList(path, libc, DeviceSpecificHeaders)
  }

  /** The file stem starts with `io`: a per-chip register header (`io.h`,
      `iom328p.h`, ...). */
  predicate HasIoStem(path: Path)
  {
    FileStem(path).Some? && StartsWith(FileStem(path).value, "io")
  }

  /** `is_header_blacklisted`, with the microcontroller the build resolved
      passed in as `mcu`. */
  predicate IsHeaderBlacklisted(path: Path, libc: Path, mcu: Option<string>)
  {
    HasIoStem(path)
    || IsHeaderInList(path, libc, HeaderBlacklist)
    || (mcu.None? && IsHeaderDeviceSpecific(path, libc))
  }

  /** Two paths under the same include directory are equal only when their
      relative parts are. */
  lemma JoinCancel(base: Path, x: Path, y: Path)
    requires base + x == base + y
    ensures x == y
  {
    assert x == (base + x)[|base|..];
    assert y == (base + y)[|base|..];
  }

  /** For a path under `<libc>/include`, list membership is membership of the
      relative part in the table. */
  lemma {:induction false} InListIffRelativeInTable(libc: Path, rel: Path, list: seq<Path>)
    ensures IsHeaderInList(IncludeDir(libc) + rel, libc, list) <==> rel in list
  {
    if IsHeaderInList(IncludeDir(libc) + rel, libc, list) {
      var i :| 0 <= i < |list| && IncludeDir(libc) + list[i] == IncludeDir(libc) + rel;
      JoinCancel(IncludeDir(libc), list[i], rel);
    }
  }

  /** No header is in both tables. */
  lemma TablesDisjoint()
    ensures forall q :: q in DeviceSpecificHeaders ==> q !in HeaderBlacklist
  {
  }

  /** No table entry names an `io` header. */
  lemma TablesHaveNoIoHeader()
    ensures forall q :: q in DeviceSpecificHeaders ==> !HasIoStem(q)
    ensures forall q :: q in HeaderBlacklist ==> !HasIoStem(q)
  {
    forall q | q in DeviceSpecificHeaders || q in HeaderBlacklist
      ensures !HasIoStem(q)
    {
      StemKeepsFirstChar(q);
    }
  }

  /** Under `<libc>/include`, a header is excluded exactly when its stem
      starts with `io`, when it is in the blacklist, or when it is device
      specific and no microcontroller is known. */
  lemma {:induction false} ExcludedIffSomeRule(libc: Path, rel: Path, mcu: Option<string>)
    requires rel != []
    ensures IsHeaderBlacklisted(IncludeDir(libc) + rel, libc, mcu) <==>
      HasIoStem(rel) || rel in HeaderBlacklist || (mcu.None? && rel in DeviceSpecificHeaders)
  {
    FileNameOfJoin(IncludeDir(libc), rel);
    InListIffRelativeInTable(libc, rel, HeaderBlacklist);
    InListIffRelativeInTable(libc, rel, DeviceSpecificHeaders);
  }

  /** A file whose name starts with `io` is excluded whatever the
      microcontroller. */
  lemma IoHeaderAlwaysExcluded(path: Path, libc: Path)
    requires FileName(path).Some? && StartsWith(FileName(path).value, "io")
    ensures forall mcu :: IsHeaderBlacklisted(path, libc, mcu)
  {
  }

  /** `<libc>/include/<entry>` for an entry of the blacklist is excluded
      whatever the microcontroller. */
  lemma BlacklistedAlwaysExcluded(libc: Path, rel: Path)
    requires rel in HeaderBlacklist
    ensures forall mcu :: IsHeaderBlacklisted(IncludeDir(libc) + rel, libc, mcu)
  {
  }

  /** `<libc>/include/<entry>` for a device-specific entry is excluded exactly
      when no microcontroller is known: the other two rules never claim it. */
  lemma {:induction false} DeviceSpecificExcludedIffNoMcu(libc: Path, rel: Path, mcu: Option<string>)
    requires rel in DeviceSpecificHeaders
    ensures IsHeaderBlacklisted(IncludeDir(libc) + rel, libc, mcu) <==> mcu.None?
  {
    ExcludedIffSomeRule(libc, rel, mcu);
    TablesDisjoint();
    TablesHaveNoIoHeader();
  }

  /** Knowing a microcontroller only ever re-admits headers, only
      device-specific ones, and which microcontroller it is does not matter. */
  lemma McuOnlyGatesDeviceSpecific(path: Path, libc: Path, name: string, other: string)
    ensures IsHeaderBlacklisted(path, libc, Some(name)) ==> IsHeaderBlacklisted(path, libc, None)
    ensures IsHeaderBlacklisted(path, libc, None) != IsHeaderBlacklisted(path, libc, Some(name)) ==>
      IsHeaderDeviceSpecific(path, libc)
    ensures IsHeaderBlacklisted(path, libc, Some(name)) == IsHeaderBlacklisted(path, libc, Some(other))
  {
  }
}
