/** `_get_system_info`: the platform strings, the ARM-detection predicate and the device name. */
module SystemInfo {
  import opened Env

  /** The indicator list of the ARM test, in the order `any` tries them. */
  const ArmIndicators: seq<string> := ["arm", "aarch64", "armv7l", "armv6l"]

  /** The device name used when /proc/device-tree/model does not exist. */
  const UnknownDevice: string := "Unknown ARM Device"

  // ---------------------------------------------------------------- lower-casing

  function LowerChar(c: char): char {
    if 'A' <= c <= 'Z' then (c as int + 32) as char else c
  }

  /** `s.lower()`, restricted to ASCII letters. */
  function Lower(s: string): (r: string)
    ensures |r| == |s|
    ensures forall i :: 0 <= i < |s| ==> r[i] == LowerChar(s[i])
  {
    if s == [] then [] else [LowerChar(s[0])] + Lower(s[1..])
  }

  lemma LowerIdempotent(s: string)
    ensures Lower(Lower(s)) == Lower(s)
  {
  }

  // ---------------------------------------------------------------- substrings

  /** `needle` occurs in `hay` starting at index `i`. */
  predicate OccursAt(hay: string, needle: string, i: int) {
    0 <= i && i + |needle| <= |hay| && hay[i..i + |needle|] == needle
  }

  /** Python's `needle in hay` on strings. */
  predicate Contains(hay: string, needle: string) {
    exists i :: 0 <= i <= |hay| - |needle| && OccursAt(hay, needle, i)
  }

  /** A string that contains `needle` contains every prefix of `needle`. */
  lemma ContainsPrefix(hay: string, needle: string, p: string)
    requires Contains(hay, needle) && p <= needle
    ensures Contains(hay, p)
  {
    var i :| 0 <= i <= |hay| - |needle| && OccursAt(hay, needle, i);
    assert hay[i..i + |p|] == hay[i..i + |needle|][..|p|];
    assert OccursAt(hay, p, i);
  }

  /** Every character of an occurring needle is a character of the string. */
  lemma ContainsChars(hay: string, needle: string, j: int)
    requires Contains(hay, needle) && 0 <= j < |needle|
    ensures needle[j] in hay
  {
  }

  // ---------------------------------------------------------------- ARM detection

  /** `any(ind in s for ind in inds)` */
  function AnyIndicatorIn(s: string, inds: seq<string>): bool {
    inds != [] && (Contains(s, inds[0]) || AnyIndicatorIn(s, inds[1..]))
  }

  lemma {:induction false} AnyIndicatorInIff(s: string, inds: seq<string>)
    ensures AnyIndicatorIn(s, inds) <==> exists k :: 0 <= k < |inds| && Contains(s, inds[k])
  {
    if inds != [] {
      AnyIndicatorInIff(s, inds[1..]);
      if AnyIndicatorIn(s, inds[1..]) {
        var k :| 0 <= k < |inds[1..]| && Contains(s, inds[1..][k]);
        assert Contains(s, inds[k + 1]);
      }
      if exists k :: 0 <= k < |inds| && Contains(s, inds[k]) {
        var k :| 0 <= k < |inds| && Contains(s, inds[k]);
        if k > 0 {
          assert Contains(s, inds[1..][k - 1]);
        }
      }
    }
  }

  /** `info['is_arm']`: some indicator occurs in the lower-cased machine string. */
  predicate IsArm(machine: string) {
    AnyIndicatorIn(Lower(machine), ArmIndicators)
  }

  /** "armv7l" and "armv6l" begin with "arm", so the test reduces to two substrings. */
  lemma IsArmIff(machine: string)
    ensures IsArm(machine) <==> Contains(Lower(machine), "arm") || Contains(Lower(machine), "aarch64")
  {
    var l := Lower(machine);
    AnyIndicatorInIff(l, ArmIndicators);
    if Contains(l, "armv7l") {
      ContainsPrefix(l, "armv7l", "arm");
    }
    if Contains(l, "armv6l") {
      ContainsPrefix(l, "armv6l", "arm");
    }
    if Contains(l, "arm") {
      assert Contains(l, ArmIndicators[0]);
    }
    if Contains(l, "aarch64") {
      assert Contains(l, ArmIndicators[1]);
    }
  }

  /** The test does not depend on the case of the machine string. */
  lemma IsArmIgnoresCase(machine: string)
    ensures IsArm(Lower(machine)) == IsArm(machine)
  {
    LowerIdempotent(machine);
  }

  /** Both reduced indicators contain an 'a' and an 'r', so an ARM machine string has both. */
  lemma IsArmNeedsLetters(machine: string)
    requires IsArm(machine)
    ensures 'a' in Lower(machine) && 'r' in Lower(machine)
  {
    IsArmIff(machine);
    if Contains(Lower(machine), "arm") {
      ContainsChars(Lower(machine), "arm", 0);
      ContainsChars(Lower(machine), "arm", 1);
    } else {
      ContainsChars(Lower(machine), "aarch64", 0);
      ContainsChars(Lower(machine), "aarch64", 2);
    }
  }

  /** A machine string whose lower-cased form begins with a reduced indicator is ARM. */
  lemma IsArmFromPrefix(machine: string, indicator: string)
    requires indicator == "arm" || indicator == "aarch64"
    requires |indicator| <= |machine| && Lower(machine)[..|indicator|] == indicator
    ensures IsArm(machine)
  {
    IsArmIff(machine);
    assert OccursAt(Lower(machine), indicator, 0);
  }

  /** Machine strings of 64-bit and 32-bit ARM boards. */
  lemma IsArmExamples()
    ensures IsArm("aarch64") && IsArm("armv7l") && IsArm("ARM64")
  {
    IsArmFromPrefix("aarch64", "aarch64");
    IsArmFromPrefix("armv7l", "arm");
    IsArmFromPrefix("ARM64", "arm");
  }

  /** Machine strings of x86 PCs. */
  lemma NotArmExamples()
    ensures !IsArm("x86_64") && !IsArm("AMD64")
  {
    if IsArm("x86_64") {
      IsArmNeedsLetters("x86_64");
      assert false;
    }
    if IsArm("AMD64") {
      IsArmNeedsLetters("AMD64");
      assert false;
    }
  }

  // ---------------------------------------------------------------- device name

  predicate AllNul(s: string) {
    forall i :: 0 <= i < |s| ==> s[i] == '\0'
  }

  /** `r` is `s` with NUL padding `s[..a]` in front and NUL padding behind. */
  predicate PaddedAt(s: string, r: string, a: int) {
    0 <= a && a + |r| <= |s| && s[a..a + |r|] == r && AllNul(s[..a]) && AllNul(s[a + |r|..])
  }

  ghost predicate NulPadded(s: string, r: string) {
    exists a :: PaddedAt(s, r, a)
  }

  function StripNulLeft(s: string): (r: string)
    ensures |r| <= |s| && r == s[|s| - |r|..] && AllNul(s[..|s| - |r|])
    ensures r == [] || r[0] != '\0'
  {
    if s != [] && s[0] == '\0' then
      var r := StripNulLeft(s[1..]);
      NulThenPadding(s, r);
      r
    else s
  }

  /** A NUL in front of padding that precedes `r` is more padding before `r`. */
  lemma NulThenPadding(s: string, r: string)
    requires s != [] && s[0] == '\0'
    requires |r| <= |s| - 1 && r == s[1..][|s| - 1 - |r|..] && AllNul(s[1..][..|s| - 1 - |r|])
    ensures r == s[|s| - |r|..] && AllNul(s[..|s| - |r|])
  {
    var pad, rest := s[..|s| - |r|], s[1..][..|s| - 1 - |r|];
    forall i | 0 < i < |pad|
      ensures pad[i] == '\0'
    {
      assert pad[i] == rest[i - 1];
    }
  }

  function StripNulRight(s: string): (r: string)
    ensures |r| <= |s| && r == s[..|r|] && AllNul(s[|r|..])
    ensures r == [] || r[|r| - 1] != '\0'
  {
    if s != [] && s[|s| - 1] == '\0' then
      var r := StripNulRight(s[..|s| - 1]);
      PaddingThenNul(s, r);
      r
    else s
  }

  /** Padding that follows `r`, then a NUL, is more padding after `r`. */
  lemma PaddingThenNul(s: string, r: string)
    requires s != [] && s[|s| - 1] == '\0'
    requires |r| <= |s| - 1 && r == s[..|s| - 1][..|r|] && AllNul(s[..|s| - 1][|r|..])
    ensures r == s[..|r|] && AllNul(s[|r|..])
  {
    var pad, rest := s[|r|..], s[..|s| - 1][|r|..];
    forall i | 0 <= i < |rest|
      ensures pad[i] == '\0'
    {
      assert pad[i] == rest[i];
    }
  }

  /** `s.strip('\x00')`: the longest slice of `s` whose ends are not NUL, once NUL
      padding on both sides is removed. */
  function StripNul(s: string): (r: string)
    ensures NulPadded(s, r)
    ensures r == [] || (r[0] != '\0' && r[|r| - 1] != '\0')
  {
    var l := StripNulLeft(s);
    var r := StripNulRight(l);
    StripBothEnds(s, l, r);
    r
  }

  /** Padding removed from the front of `s` and then from the back of what is left is
      padding around one slice of `s`. */
  lemma StripBothEnds(s: string, l: string, r: string)
    requires |l| <= |s| && l == s[|s| - |l|..] && AllNul(s[..|s| - |l|])
    requires |r| <= |l| && r == l[..|r|] && AllNul(l[|r|..])
    ensures PaddedAt(s, r, |s| - |l|)
  {
    var a := |s| - |l|;
    assert s[a..a + |r|] == r;
    assert s[a + |r|..] == l[|r|..];
  }

  /** Stripping a string that already has no NUL at either end changes nothing. */
  lemma StripNulKeepsUnpadded(s: string)
    requires s == [] || (s[0] != '\0' && s[|s| - 1] != '\0')
    ensures StripNul(s) == s
  {
  }

  /** `info['device']`: the stripped device-tree model, or the fixed default when the
      file does not exist (on ARM and non-ARM hosts alike). */
  function DeviceName(model: Option<string>): (r: string)
    ensures model.None? ==> r == UnknownDevice
    ensures model.Some? ==> NulPadded(model.value, r) && (r == [] || (r[0] != '\0' && r[|r| - 1] != '\0'))
  {
    match model
    case None => UnknownDevice
    case Some(text) => StripNul(text)
  }

  // ---------------------------------------------------------------- the info record

  datatype Info = Info(
    system: string,
    machine: string,
    pythonVersion: string,
    pythonExecutable: string,
    isArm: bool,
    device: string)

  /** `_get_system_info`: fills the record field by field, as the source fills its dict. */
  method GetSystemInfo(h: Host) returns (info: Info)
    ensures info.system == h.system && info.machine == h.machine
    ensures info.pythonVersion == h.pythonVersion && info.pythonExecutable == h.executable
    ensures info.isArm <==> Contains(Lower(h.machine), "arm") || Contains(Lower(h.machine), "aarch64")
    ensures info.device == DeviceName(h.deviceTreeModel)
  {
    info := Info(h.system, h.machine, h.pythonVersion, h.executable, false, "");
    info := info.(isArm := AnyIndicatorIn(Lower(info.machine), ArmIndicators));
    IsArmIff(h.machine);
    if h.deviceTreeModel.Some? {
      info := info.(device := StripNul(h.deviceTreeModel.value));
    } else {
      info := info.(device := UnknownDevice);
    }
  }
}
