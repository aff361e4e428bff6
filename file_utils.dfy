/**
 * Filename helpers (`backend/app/utils/file_utils.py`): the extension as Python's
 * `os.path.splitext` computes it for POSIX paths, lowercased, and the audio-extension test.
 */
module FileUtils {
  import opened Text

  const AudioExtensions: seq<string> := [".mp3", ".wav", ".m4a", ".webm", ".ogg", ".flac"]

  /** Python `s.rfind(c)`: the last index of `c`, or -1. */
  function RFind(s: string, c: char): (k: int)
    ensures -1 <= k < |s|
    ensures k >= 0 ==> s[k] == c
    ensures forall i :: k < i < |s| ==> s[i] != c
    decreases |s|
  {
    if s == [] then -1 else if s[|s| - 1] == c then |s| - 1 else RFind(s[..|s| - 1], c)
  }

  predicate AllDots(s: string) {
    forall i :: 0 <= i < |s| ==> s[i] == '.'
  }

  /**
   * `os.path.splitext(p)`: when the last '.' comes after the last '/' and the base name has a
   * character other than '.' before it, the extension is the text from that '.' on; otherwise
   * the extension is empty (so leading dots of a base name never start an extension).
   */
  function SplitExt(p: string): (parts: (string, string))
    ensures parts.0 + parts.1 == p
    ensures parts.1 == [] || (parts.1[0] == '.' && '/' !in parts.1 && '.' !in parts.1[1..])
  {
    var sep := RFind(p, '/');
    var dot := RFind(p, '.');
    if dot > sep && !AllDots(p[sep + 1..dot]) then
      SuffixAfterLast(p, sep, dot);
      (p[..dot], p[dot..])
    else (p, "")
  }

  /** The suffix starting at the last '.' holds no '/' (it follows the last '/') and no other '.'. */
  lemma SuffixAfterLast(p: string, sep: int, dot: int)
    requires sep == RFind(p, '/') && dot == RFind(p, '.') && dot > sep
    ensures p[..dot] + p[dot..] == p
    ensures p[dot..][0] == '.' && '/' !in p[dot..] && '.' !in p[dot..][1..]
  {
  }

  /** `get_file_extension`: the splitext extension, lowercased. */
  function GetFileExtension(filename: string): (ext: string)
    ensures ext == [] || ext[0] == '.'
    ensures HasNoAsciiUpper(ext)
    ensures |ext| <= |filename|
  {
    Lower(SplitExt(filename).1)
  }

  /** `is_audio_file`. */
  predicate IsAudioFile(filename: string) {
    GetFileExtension(filename) in AudioExtensions
  }

  /** The extension is exactly the final '.'-suffix of the base name, when there is one. */
  lemma ExtensionIsFinalSuffix(p: string)
    ensures var ext := SplitExt(p).1;
      ext != [] ==> EndsWith(p, ext) && (forall i :: |p| - |ext| < i < |p| ==> p[i] != '.' && p[i] != '/')
  {
    var ext := SplitExt(p).1;
    if ext != [] {
      assert p[|p| - |ext|..] == ext;
    }
  }

  /**
   * splitext in general: a name has an extension exactly when its last '.' follows its last '/'
   * with some character other than '.' between them, and the extension is then the text from
   * that '.' on, which `get_file_extension` lowercases.
   */
  lemma ExtensionOfFinalComponent(p: string, sep: int, dot: int)
    requires sep == RFind(p, '/') && dot == RFind(p, '.')
    ensures SplitExt(p).1 != [] <==> dot > sep && exists i :: sep < i < dot && p[i] != '.'
    ensures SplitExt(p).1 != [] ==> SplitExt(p) == (p[..dot], p[dot..]) && GetFileExtension(p) == Lower(p[dot..])
  {
    if dot > sep {
      var b := p[sep + 1..dot];
      if !AllDots(b) {
        var j :| 0 <= j < |b| && b[j] != '.';
        assert p[sep + 1 + j] == b[j];
      }
      if exists i :: sep < i < dot && p[i] != '.' {
        var i :| sep < i < dot && p[i] != '.';
        assert b[i - sep - 1] == p[i];
      }
    }
  }

  /** A name with several dots takes the last one. */
  lemma MultiDotExample()
    ensures GetFileExtension("take.2.wav") == ".wav" && IsAudioFile("take.2.wav")
  {
    var p := "take.2.wav";
    assert RFind(p, '.') == 6 by {
      assert p[..|p| - 1] == "take.2.wa";
      assert "take.2.wa"[..8] == "take.2.w";
      assert "take.2.w"[..7] == "take.2.";
    }
    assert RFind(p, '/') == -1;
    assert p[0] != '.';
    ExtensionOfFinalComponent(p, -1, 6);
    assert p[6..] == ".wav";
    LowerOfLowercase(".wav");
  }

  /** A directory in front of the name plays no part. */
  lemma DirectoryExample()
    ensures GetFileExtension("dir/a.mp3") == ".mp3" && IsAudioFile("dir/a.mp3")
  {
    var q := "dir/a.mp3";
    assert RFind(q, '.') == 5 by {
      assert q[..|q| - 1] == "dir/a.mp";
      assert "dir/a.mp"[..7] == "dir/a.m";
      assert "dir/a.m"[..6] == "dir/a.";
    }
    assert RFind(q, '/') == 3 by {
      assert q[..8] == "dir/a.mp";
      assert "dir/a.mp"[..7] == "dir/a.m";
      assert "dir/a.m"[..6] == "dir/a.";
      assert "dir/a."[..5] == "dir/a";
      assert "dir/a"[..4] == "dir/";
    }
    assert q[4] != '.';
    ExtensionOfFinalComponent(q, 3, 5);
    assert q[5..] == ".mp3";
    LowerOfLowercase(".mp3");
  }

  /** A base name whose only dots are leading ones (".wav", "dir/..bashrc") has no extension. */
  lemma LeadingDotsAreNotAnExtension(dir: string, dots: string, name: string)
    requires |dots| >= 1 && AllDots(dots)
    requires '/' !in name && '.' !in name
    ensures SplitExt(dir + "/" + dots + name).1 == ""
    ensures SplitExt(dots + name).1 == ""
  {
    var p := dir + "/" + dots + name;
    var dot := RFind(p, '.');
    var sep := RFind(p, '/');
    assert p[|dir|] == '/';
    assert p[|dir| + |dots|] == '.' by { assert p[|dir| + |dots|] == dots[|dots| - 1]; }
    forall i | |dir| < i < |p| ensures p[i] != '/' {
      if i <= |dir| + |dots| {
        assert p[i] == dots[i - |dir| - 1];
      } else {
        assert p[i] == name[i - |dir| - |dots| - 1];
      }
    }
    assert sep == |dir|;
    forall i | |dir| + |dots| < i < |p| ensures p[i] != '.' {
      assert p[i] == name[i - |dir| - |dots| - 1];
    }
    assert dot == |dir| + |dots|;
    assert AllDots(p[sep + 1..dot]) by {
      var b := p[sep + 1..dot];
      forall i | 0 <= i < |b| ensures b[i] == '.' {
        assert b[i] == p[sep + 1 + i] == dots[i];
      }
    }
    var q := dots + name;
    var qdot := RFind(q, '.');
    forall i | 0 <= i < |q| ensures q[i] != '/' {
      if i < |dots| {
        assert q[i] == dots[i];
      } else {
        assert q[i] == name[i - |dots|];
      }
    }
    forall i | |dots| - 1 < i < |q| ensures q[i] != '.' {
      assert q[i] == name[i - |dots|];
    }
    assert q[|dots| - 1] == '.';
    assert qdot == |dots| - 1;
    assert AllDots(q[0..qdot]) by {
      var b := q[0..qdot];
      forall i | 0 <= i < |b| ensures b[i] == '.' {
        assert b[i] == q[i] == dots[i];
      }
    }
  }

  /** Lowercasing does not move a '.' or a '/'. */
  lemma {:induction false} RFindLower(s: string, c: char)
    requires !('A' <= c <= 'Z') && !('a' <= c <= 'z')
    ensures RFind(Lower(s), c) == RFind(s, c)
    decreases |s|
  {
    if s != [] {
      assert Lower(s)[..|s| - 1] == Lower(s[..|s| - 1]);
      RFindLower(s[..|s| - 1], c);
    }
  }

  /** Lowercasing the name first gives the same extension: `validate_audio_file` and `get_file_extension` agree. */
  lemma SplitExtLower(p: string)
    ensures SplitExt(Lower(p)).1 == Lower(SplitExt(p).1)
  {
    var lp := Lower(p);
    RFindLower(p, '/');
    RFindLower(p, '.');
    var sep := RFind(p, '/');
    var dot := RFind(p, '.');
    if dot > sep {
      var b := p[sep + 1..dot];
      LowerSlice(p, sep + 1, dot);
      LowerSlice(p, dot, |p|);
      AllDotsLower(b);
      assert p[dot..|p|] == p[dot..] && lp[dot..|p|] == lp[dot..];
    } else {
      assert Lower("") == "";
    }
  }

  /** Lowercasing keeps exactly the dots. */
  lemma AllDotsLower(b: string)
    ensures AllDots(Lower(b)) <==> AllDots(b)
  {
    forall i | 0 <= i < |b| ensures Lower(b)[i] == '.' <==> b[i] == '.' {
    }
  }

  /** `is_audio_file` ignores the case of the name. */
  lemma IsAudioFileIgnoresCase(filename: string)
    ensures IsAudioFile(Lower(filename)) == IsAudioFile(filename)
    ensures GetFileExtension(Lower(filename)) == GetFileExtension(filename)
  {
    SplitExtLower(filename);
    LowerIdempotent(SplitExt(filename).1);
  }

  lemma LowerIdempotent(s: string)
    ensures Lower(Lower(s)) == Lower(s)
  {
    forall i | 0 <= i < |s| ensures Lower(Lower(s))[i] == Lower(s)[i] {
    }
  }

  /** The cases the repository's tests check: "test.mp3" and "test.wav" are audio, "test.txt" is not. */
  lemma TestMp3IsAudio()
    ensures GetFileExtension("test.mp3") == ".mp3" && IsAudioFile("test.mp3")
  {
    GetFileExtensionAtOnlyDot("test.mp3", 4);
  }

  lemma TestWavIsAudio()
    ensures GetFileExtension("test.wav") == ".wav" && IsAudioFile("test.wav")
  {
    GetFileExtensionAtOnlyDot("test.wav", 4);
  }

  lemma TestTxtIsNotAudio()
    ensures GetFileExtension("test.txt") == ".txt" && !IsAudioFile("test.txt")
  {
    GetFileExtensionAtOnlyDot("test.txt", 4);
  }

  /** A name without a dot has the empty extension. */
  lemma NoDotNoExtension(name: string)
    requires '.' !in name
    ensures GetFileExtension(name) == ""
  {
    assert RFind(name, '.') == -1;
  }

  lemma GetFileExtensionOfStemDotExt(stem: string, ext: string)
    requires stem != [] && '.' !in stem && '/' !in stem && '.' !in ext && '/' !in ext
    requires HasNoAsciiUpper(ext)
    ensures GetFileExtension(stem + "." + ext) == "." + ext
  {
    ExtensionOfStemDotExt(stem, ext);
    LowerOfLowercase("." + ext);
  }

  lemma LowerOfLowercase(s: string)
    requires HasNoAsciiUpper(s)
    ensures Lower(s) == s
  {
  }

  /** An upper-case name is accepted; a dot-file name has no extension. */
  lemma CaseAndDotFileExamples()
    ensures IsAudioFile("X.MP3")
    ensures GetFileExtension(".wav") == ""
  {
    ExtensionAtOnlyDot("X.MP3", 1);
    assert "X.MP3"[1..] == ".MP3";
    assert Lower(".MP3") == ".mp3";
    var w := ".wav";
    assert w[0] == '.' && '/' !in w;
    assert RFind(w, '.') == 0 && RFind(w, '/') == -1;
  }

  /** A name with no '/' whose only '.' sits at index k > 0 splits at that dot. */
  lemma ExtensionAtOnlyDot(p: string, k: int)
    requires 0 < k < |p| && p[k] == '.'
    requires forall i :: 0 <= i < |p| ==> p[i] != '/' && (p[i] == '.' ==> i == k)
    ensures SplitExt(p).1 == p[k..]
  {
    assert RFind(p, '.') == k;
    assert RFind(p, '/') == -1;
    assert p[0..k][0] == p[0];
  }

  /** The same name, with a lower-case part after the dot, has that part as its extension. */
  lemma GetFileExtensionAtOnlyDot(p: string, k: int)
    requires 0 < k < |p| && p[k] == '.'
    requires forall i :: 0 <= i < |p| ==> p[i] != '/' && (p[i] == '.' ==> i == k)
    requires HasNoAsciiUpper(p[k..])
    ensures GetFileExtension(p) == p[k..]
  {
    ExtensionAtOnlyDot(p, k);
    LowerOfLowercase(p[k..]);
  }

  /** "stem.ext" with a plain stem and extension splits at the dot. */
  lemma ExtensionOfStemDotExt(stem: string, ext: string)
    requires stem != [] && '.' !in stem && '/' !in stem && '.' !in ext && '/' !in ext
    ensures SplitExt(stem + "." + ext).1 == "." + ext
  {
    var p := stem + "." + ext;
    forall i | 0 <= i < |p| ensures p[i] != '/' {
      if i < |stem| { assert p[i] == stem[i]; } else if i > |stem| { assert p[i] == ext[i - |stem| - 1]; }
    }
    forall i | |stem| < i < |p| ensures p[i] != '.' {
      assert p[i] == ext[i - |stem| - 1];
    }
    assert p[|stem|] == '.';
    assert RFind(p, '.') == |stem|;
    assert RFind(p, '/') == -1;
    assert p[0] == stem[0] != '.';
    assert p[|stem|..] == "." + ext;
  }
}
