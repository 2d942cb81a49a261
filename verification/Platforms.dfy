/** The platform of an index child and when it is wanted (pull.go, parseIndex and platformMatches). */
module Platforms {
  import opened Text

  /** The single string parseIndex makes of a child's os, architecture and variant. */
  function PlatformString(os: string, arch: string, variant: string): string {
    var base := TrimPrefix(os + "/" + arch, "/");
    var plat := if variant == "" then base else base + "/" + variant;
    if plat == "" || plat == "unknown/unknown" then "attestation" else plat
  }

  /** An empty want takes every child; one without a variant takes any variant. */
  predicate PlatformMatches(want: string, plat: string) {
    want == "" || plat == want || (Count(want, '/') == 1 && HasPrefix(plat, want + "/"))
  }

  /** A component of a platform: non-empty and slash-free. */
  predicate Component(s: string) {
    s != "" && '/' !in s
  }

  /** The children that parseIndex cannot tell from an attestation. */
  predicate Unnamed(os: string, arch: string, variant: string) {
    os == "unknown" && arch == "unknown" && variant == ""
  }

  lemma CountJoined(a: string, b: string)
    requires '/' !in a
    ensures Count(a + "/" + b, '/') == 1 + Count(b, '/')
  {
    CountConcat(a + "/", b, '/');
    CountConcat(a, "/", '/');
    CountAbsent(a, '/');
  }

  /** The string of a child that names its operating system keeps all parts in order. */
  lemma NamedPlatform(os: string, arch: string, variant: string)
    requires os != "" && '/' !in os && '/' !in arch && '/' !in variant
    ensures PlatformString(os, arch, variant) ==
            if Unnamed(os, arch, variant) then "attestation" else os + "/" + ArchAndVariant(arch, variant)
  {
    var tail := ArchAndVariant(arch, variant);
    assert os + "/" + arch + "/" + variant == os + "/" + (arch + "/" + variant);
    assert (os + "/" + arch)[0] == os[0] != '/';
    if os + "/" + tail == "unknown/unknown" {
      UnknownIsUnnamed(os, tail);
      assert variant != "" ==> '/' in tail;
    }
  }

  /** Without it, architecture and variant take the places of operating system and architecture. */
  lemma NamelessPlatform(arch: string, variant: string)
    requires '/' !in arch && '/' !in variant
    ensures variant != "" && !Unnamed(arch, variant, "") ==> PlatformString("", arch, variant) == arch + "/" + variant
    ensures variant == "" || Unnamed(arch, variant, "") ==> '/' !in PlatformString("", arch, variant)
  {
    var none: string := "";
    assert '/' !in "attestation";
    assert none + "/" + arch == "/" + arch;
    assert TrimPrefix("/" + arch, "/") == arch;
    if arch + "/" + variant == "unknown/unknown" {
      UnknownIsUnnamed(arch, variant);
    }
  }

  function ArchAndVariant(arch: string, variant: string): string {
    if variant == "" then arch else arch + "/" + variant
  }

  lemma UnknownIsUnnamed(os: string, tail: string)
    requires '/' !in os && os + "/" + tail == "unknown/unknown"
    ensures os == "unknown" && tail == "unknown"
  {
    var u := "unknown";
    assert '/' !in u;
    assert u + "/" + u == "unknown/unknown";
    SplitUnique(os, '/', tail, u, u);
  }

  /** A want of two components takes a string iff it agrees up to the first slash, and what follows is the
      architecture wanted, alone or with something after another slash. */
  lemma MatchesTail(wantOs: string, wantArch: string, x: string, tail: string)
    requires Component(wantOs) && Component(wantArch) && '/' !in x
    ensures PlatformMatches(wantOs + "/" + wantArch, x + "/" + tail) <==> x == wantOs && (tail == wantArch || wantArch + "/" <= tail)
  {
    var want, plat := wantOs + "/" + wantArch, x + "/" + tail;
    CountJoined(wantOs, wantArch);
    CountAbsent(wantArch, '/');
    if plat == want {
      SplitUnique(x, '/', tail, wantOs, wantArch);
    }
    if want + "/" <= plat {
      var rest := plat[|want| + 1..];
      assert plat == wantOs + "/" + (wantArch + "/" + rest);
      SplitUnique(x, '/', tail, wantOs, wantArch + "/" + rest);
    }
    if x == wantOs && wantArch + "/" <= tail {
      assert want + "/" == wantOs + "/" + (wantArch + "/");
    }
  }

  lemma NoSlashNoMatch(want: string, plat: string)
    requires '/' in want && '/' !in plat
    ensures !PlatformMatches(want, plat)
  {
    var i :| 0 <= i < |want| && want[i] == '/';
    assert (want + "/")[i] == '/';
  }

  lemma TailMatches(wantArch: string, arch: string, variant: string)
    requires Component(wantArch) && '/' !in arch && '/' !in variant
    ensures var tail := ArchAndVariant(arch, variant); tail == wantArch || wantArch + "/" <= tail <==> arch == wantArch
  {
    var tail := ArchAndVariant(arch, variant);
    assert variant != "" ==> tail[|arch|] == '/';
    if wantArch + "/" <= tail {
      var rest := tail[|wantArch| + 1..];
      assert tail == wantArch + "/" + rest && tail[|wantArch|] == '/';
      if variant != "" {
        SplitUnique(arch, '/', variant, wantArch, rest);
      }
    }
  }

  /** A child without operating system whose architecture and variant read as the platform wanted. */
  predicate Shifted(wantOs: string, wantArch: string, os: string, arch: string, variant: string) {
    os == "" && arch == wantOs && variant == wantArch && !Unnamed(arch, variant, "")
  }

  /** A want without a variant takes a child, of whose parts any may be empty, iff operating system and
      architecture agree, so that linux/arm never takes linux/arm64; or iff the child names no operating
      system and its architecture and variant stand in their places. */
  lemma MatchesAnyVariant(wantOs: string, wantArch: string, os: string, arch: string, variant: string)
    requires Component(wantOs) && Component(wantArch) && '/' !in os && '/' !in arch && '/' !in variant
    ensures PlatformMatches(wantOs + "/" + wantArch, PlatformString(os, arch, variant))
            <==> (os == wantOs && arch == wantArch && !Unnamed(os, arch, variant)) || Shifted(wantOs, wantArch, os, arch, variant)
  {
    var want := wantOs + "/" + wantArch;
    assert want[|wantOs|] == '/';
    assert '/' !in "attestation";
    if os == "" {
      NamelessPlatform(arch, variant);
      MatchesTail(wantOs, wantArch, arch, variant);
      TailMatches(wantArch, variant, "");
    } else {
      NamedPlatform(os, arch, variant);
      MatchesTail(wantOs, wantArch, os, ArchAndVariant(arch, variant));
      TailMatches(wantArch, arch, variant);
    }
    if '/' !in PlatformString(os, arch, variant) {
      NoSlashNoMatch(want, PlatformString(os, arch, variant));
    }
  }

  /** A want with a variant takes a child iff all three parts agree, whatever parts of the child are empty. */
  lemma MatchesOneVariant(wantOs: string, wantArch: string, wantVariant: string, os: string, arch: string, variant: string)
    requires Component(wantOs) && Component(wantArch) && Component(wantVariant)
    requires '/' !in os && '/' !in arch && '/' !in variant
    ensures PlatformMatches(wantOs + "/" + (wantArch + "/" + wantVariant), PlatformString(os, arch, variant))
            <==> os == wantOs && arch == wantArch && variant == wantVariant
  {
    var wantTail := wantArch + "/" + wantVariant;
    var want, plat := wantOs + "/" + wantTail, PlatformString(os, arch, variant);
    assert want[|wantOs|] == '/' && wantTail[|wantArch|] == '/';
    CountJoined(wantOs, wantTail);
    CountJoined(wantArch, wantVariant);
    if os == "" {
      NamelessPlatform(arch, variant);
    } else {
      NamedPlatform(os, arch, variant);
    }
    assert '/' !in "attestation";
    if plat == want {
      if os == "" {
        SplitUnique(arch, '/', variant, wantOs, wantTail);
      } else {
        SplitUnique(os, '/', ArchAndVariant(arch, variant), wantOs, wantTail);
        if variant != "" {
          SplitUnique(arch, '/', variant, wantArch, wantVariant);
        }
      }
    }
  }

  /** So linux/amd64 takes a child of architecture linux and variant amd64 that names no operating system. */
  lemma EmptyOsIsMistaken()
    ensures PlatformMatches("linux" + "/" + "amd64", PlatformString("", "linux", "amd64"))
  {
    assert Component("linux") && Component("amd64") && '/' !in "";
    MatchesAnyVariant("linux", "amd64", "", "linux", "amd64");
  }
}
