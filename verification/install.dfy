/** Platform classification (src/services/install.service.ts). The platform
    name and the distribution probe are inputs. */
module Install {
  import opened Wrappers
  import opened Text

  /** The classification, with the source's enum values as `Code`. */
  datatype OS = Mac | Windows | Ubuntu | Other {
    function Code(): (c: int)
      ensures 1 <= c <= 4
    {
      match this
      case Mac => 1
      case Windows => 2
      case Ubuntu => 3
      case Other => 4
    }
  }

  /** What `hostnamectl --json=short` yielded: the text of its
      `KernelVersion`, or a failure (the command failing, its output not
      parsing, or the field missing), which the source catches. */
  datatype DistroProbe = Kernel(text: string) | ProbeFailed

  /** Linux is told apart by the kernel text; the distribution probe is
      consulted for Linux only. */
  function LinuxOS(distro: DistroProbe): (os: OS)
    ensures os == Ubuntu <==> distro.Kernel? && Contains(distro.text, "Ubuntu")
    ensures os != Ubuntu ==> os == Other
  {
    match distro
    case Kernel(t) => if Contains(t, "Ubuntu") then Ubuntu else Other
    case ProbeFailed => Other
  }

  /** `getOS` as written: the "win" test comes before the "darwin" test. */
  function GetOS(platform: string, distro: DistroProbe): (os: OS)
    ensures os != Mac
    ensures platform == "linux" ==> os == LinuxOS(distro)
    ensures platform != "linux" ==> (os == Windows <==> Contains(platform, "win"))
    ensures platform != "linux" && !Contains(platform, "win") ==> os == Other
  {
    if platform == "linux" then LinuxOS(distro)
    else if Contains(platform, "win") then Windows
    else if Contains(platform, "darwin") then
      DarwinContainsWin(platform);
      assert false;
      Mac
    else Other
  }

  /** "darwin" ends in "win", so any text holding the one holds the other. */
  lemma DarwinContainsWin(s: string)
    requires Contains(s, "darwin")
    ensures Contains(s, "win")
  {
    ContainsIffOccurs(s, "darwin");
    var i :| 0 <= i <= |s| && StartsWith(s[i..], "darwin");
    assert s[i..][..6] == "darwin";
    assert s[i + 3..][..3] == s[i..][..6][3..];
    ContainsAt(s, "win", i + 3);
  }

  /** macOS, whose platform name is "darwin", is classified as Windows. */
  lemma MacClassifiedAsWindows(distro: DistroProbe)
    ensures GetOS("darwin", distro) == Windows
  {
    assert StartsWith("darwin"[3..], "win");
    ContainsAt("darwin", "win", 3);
  }

  /** The classification with the "darwin" test first, so that macOS is
      recognised. */
  function GetOSIntended(platform: string, distro: DistroProbe): (os: OS)
    ensures platform == "linux" ==> os == LinuxOS(distro)
    ensures platform != "linux" ==> (os == Mac <==> Contains(platform, "darwin"))
    ensures platform != "linux" && !Contains(platform, "darwin") ==> (os == Windows <==> Contains(platform, "win"))
  {
    if platform == "linux" then LinuxOS(distro)
    else if Contains(platform, "darwin") then Mac
    else if Contains(platform, "win") then Windows
    else Other
  }

  lemma MacRecognised(distro: DistroProbe)
    ensures GetOSIntended("darwin", distro) == Mac
  {
    assert StartsWith("darwin", "darwin");
  }

  /** The two orders disagree exactly on platform names holding "darwin". */
  lemma IntendedDiffersOnlyOnDarwin(platform: string, distro: DistroProbe)
    requires platform != "linux"
    ensures GetOSIntended(platform, distro) != GetOS(platform, distro) <==> Contains(platform, "darwin")
  {
    if Contains(platform, "darwin") {
      DarwinContainsWin(platform);
    }
  }

  /** A platform matching none of the tests is Other, e.g. "freebsd". */
  lemma FreeBsdIsOther(distro: DistroProbe)
    ensures GetOS("freebsd", distro) == Other
  {
    assert !Contains("freebsd", "win") by {
      ContainsIffOccurs("freebsd", "win");
      forall i | 0 <= i <= |"freebsd"| ensures !StartsWith("freebsd"[i..], "win") {
        if i + 3 <= 7 {
          assert "freebsd"[i..][0] == "freebsd"[i] != 'w';
        }
      }
    }
  }
}
