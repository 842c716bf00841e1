/**
 * File-name rules for uploaded images: Node's `path.extname` and
 * `path.basename(name, ext)` on a bare file name, the name multer stores an
 * upload under, and the extension/MIME allow-list.
 */
module Uploads {
  import opened Js

  /** Index of the last '.', or -1 when there is none. */
  function LastDot(s: string): (r: int)
    ensures -1 <= r < |s|
    ensures r >= 0 ==> s[r] == '.'
    ensures forall i :: r < i < |s| ==> s[i] != '.'
  {
    if s == [] then -1
    else if s[|s| - 1] == '.' then |s| - 1
    else LastDot(s[..|s| - 1])
  }

  predicate NoDot(s: string) {
    forall i :: 0 <= i < |s| ==> s[i] != '.'
  }

  /**
   * `path.extname(name)`: from the last '.' to the end, except that a name
   * with no '.', a name whose only leading part is that '.', and ".." have none.
   */
  function ExtName(name: string): (r: string)
    ensures r != "" ==> r[0] == '.' && NoDot(r[1..]) && |r| < |name| && name[|name| - |r|..] == r
  {
    var d := LastDot(name);
    if d <= 0 || name == ".." then "" else name[d..]
  }

  /** `path.basename(name, path.extname(name))`. */
  function Stem(name: string): (r: string)
    ensures r + ExtName(name) == name
  {
    var ext := ExtName(name);
    var r := name[..|name| - |ext|];
    assert r + ext == name;
    r
  }

  /**
   * What `/[^a-zA-Z0-9]/g` puts in place of one character. Without the `u`
   * flag the pattern matches UTF-16 code units, so a character outside the
   * Basic Multilingual Plane is two matches and becomes "--".
   */
  function SanitizeChar(c: char): (r: string)
    ensures |r| == Utf16Units(c)
    ensures IsAsciiAlnum(c) ==> r == [c]
    ensures !IsAsciiAlnum(c) ==> forall j :: 0 <= j < |r| ==> r[j] == '-'
  {
    if IsAsciiAlnum(c) then [c] else if c as int > 0xFFFF then "--" else "-"
  }

  /** `s.replace(/[^a-zA-Z0-9]/g, '-')`. */
  function Sanitize(s: string): (r: string)
    ensures |r| == Utf16Length(s)
    ensures forall j :: 0 <= j < |r| ==> IsAsciiAlnum(r[j]) || r[j] == '-'
    decreases |s|
  {
    if s == [] then [] else SanitizeChar(s[0]) + Sanitize(s[1..])
  }

  /** Sanitising works character by character: it distributes over concatenation. */
  lemma {:induction false} SanitizeAppend(a: string, b: string)
    ensures Sanitize(a + b) == Sanitize(a) + Sanitize(b)
    decreases |a|
  {
    if a == [] {
      assert a + b == b;
    } else {
      assert (a + b)[1..] == a[1..] + b;
      SanitizeAppend(a[1..], b);
    }
  }

  /**
   * The code units that stand for character i are its replacement: the
   * character itself when it is an ASCII letter or digit, a '-' per code unit
   * otherwise.
   */
  lemma SanitizeAt(s: string, i: nat)
    requires i < |s|
    ensures Utf16Length(s[..i]) + Utf16Units(s[i]) <= |Sanitize(s)|
    ensures Sanitize(s)[Utf16Length(s[..i])..Utf16Length(s[..i]) + Utf16Units(s[i])] == SanitizeChar(s[i])
  {
    var a, c, b := s[..i], [s[i]], s[i + 1..];
    assert s == a + c + b;
    SanitizeAppend(a + c, b);
    SanitizeAppend(a, c);
    assert Sanitize(c) == SanitizeChar(s[i]) by {
      assert c[1..] == [];
    }
    assert Sanitize(s) == Sanitize(a) + SanitizeChar(s[i]) + Sanitize(b);
  }

  /** Within the Basic Multilingual Plane the result is the input with every other character replaced by '-'. */
  lemma {:induction false} SanitizeBmp(s: string)
    requires forall i :: 0 <= i < |s| ==> s[i] as int <= 0xFFFF
    ensures |Sanitize(s)| == |s|
    ensures forall i :: 0 <= i < |s| ==> Sanitize(s)[i] == if IsAsciiAlnum(s[i]) then s[i] else '-'
    decreases |s|
  {
    if s != [] {
      SanitizeBmp(s[1..]);
      var r := Sanitize(s);
      assert |SanitizeChar(s[0])| == 1;
      forall i | 0 <= i < |s| ensures r[i] == if IsAsciiAlnum(s[i]) then s[i] else '-' {
        if i > 0 {
          assert r[i] == Sanitize(s[1..])[i - 1];
        }
      }
    }
  }

  /** An emoji is one character but two code units, and each becomes a '-'. */
  lemma SanitizeAstral()
    ensures Sanitize("\U{1F600}") == "--"
  {
    assert "\U{1F600}"[1..] == [];
  }

  /**
   * The stored name of an upload: sanitised stem, '-', the millisecond clock,
   * '-', a random number below 10^9, then the original extension.
   */
  function UploadFilename(original: string, millis: nat, random: nat): string {
    Sanitize(Stem(original)) + "-" + DecimalString(millis) + "-" + DecimalString(random) + ExtName(original)
  }

  lemma DigitsHaveNoDot(s: string)
    requires AllDigits(s)
    ensures NoDot(s)
  {
    forall i | 0 <= i < |s| ensures s[i] != '.' {
      DecimalDigitValue(s[i]);
    }
  }

  lemma NoDotLast(s: string)
    requires NoDot(s)
    ensures LastDot(s) == -1
  {
  }

  lemma LastDotAfter(a: string, b: string)
    requires a != [] && NoDot(a)
    requires b != [] && b[0] == '.' && NoDot(b[1..])
    ensures LastDot(a + b) == |a|
  {
    var s := a + b;
    assert s[|a|] == '.';
    forall i | |a| < i < |s| ensures s[i] != '.' {
      assert s[i] == b[1..][i - |a| - 1];
    }
  }

  /** Sanitised text and digit runs joined by '-' contain no dot. */
  lemma JoinedHasNoDot(a: string, m: string, n: string)
    requires NoDot(m) && NoDot(n)
    requires forall i :: 0 <= i < |a| ==> IsAsciiAlnum(a[i]) || a[i] == '-'
    ensures NoDot(a + "-" + m + "-" + n)
  {
    var head := a + "-" + m + "-" + n;
    forall i | 0 <= i < |head| ensures head[i] != '.' {
      if i < |a| {
        assert head[i] == a[i];
      } else if i == |a| || i == |a| + 1 + |m| {
        assert head[i] == '-';
      } else if i < |a| + 1 + |m| {
        assert head[i] == m[i - |a| - 1];
      } else {
        assert head[i] == n[i - |a| - 2 - |m|];
      }
    }
  }

  /** The stored name ends in the original's extension and nothing else counts as one. */
  lemma UploadKeepsExtension(original: string, millis: nat, random: nat)
    ensures ExtName(UploadFilename(original, millis, random)) == ExtName(original)
  {
    var ext := ExtName(original);
    var head := Sanitize(Stem(original)) + "-" + DecimalString(millis) + "-" + DecimalString(random);
    assert UploadFilename(original, millis, random) == head + ext;
    DigitsHaveNoDot(DecimalString(millis));
    DigitsHaveNoDot(DecimalString(random));
    JoinedHasNoDot(Sanitize(Stem(original)), DecimalString(millis), DecimalString(random));
    if ext == "" {
      assert head + ext == head;
      NoDotLast(head);
    } else {
      LastDotAfter(head, ext);
      assert (head + ext)[|head|..] == ext;
    }
  }

  /** Before its extension, a stored name holds only ASCII letters, digits and '-'. */
  lemma UploadStemIsSafe(original: string, millis: nat, random: nat, i: nat)
    requires i < |UploadFilename(original, millis, random)| - |ExtName(original)|
    ensures IsAsciiAlnum(UploadFilename(original, millis, random)[i]) || UploadFilename(original, millis, random)[i] == '-'
  {
    var a := Sanitize(Stem(original));
    var m := DecimalString(millis);
    var n := DecimalString(random);
    var f := UploadFilename(original, millis, random);
    if i < |a| {
      assert f[i] == a[i];
    } else if i == |a| || i == |a| + 1 + |m| {
      assert f[i] == '-';
    } else if i < |a| + 1 + |m| {
      assert f[i] == m[i - |a| - 1];
      DecimalDigitValue(m[i - |a| - 1]);
    } else {
      assert f[i] == n[i - |a| - 2 - |m|];
      DecimalDigitValue(n[i - |a| - 2 - |m|]);
    }
  }

  /** `/jpeg|jpg|png|gif|webp|svg/.test(s)`: the pattern is not anchored. */
  predicate ImagePattern(s: string) {
    Contains(s, "jpeg") || Contains(s, "jpg") || Contains(s, "png")
    || Contains(s, "gif") || Contains(s, "webp") || Contains(s, "svg")
  }

  /** multer's `fileFilter`: both the lower-cased extension and the MIME type must match. */
  predicate FileFilter(original: string, mimetype: string) {
    ImagePattern(Lower(ExtName(original))) && ImagePattern(mimetype)
  }

  lemma {:induction false} ContainsSuffix(a: string, b: string)
    ensures Contains(a + b, b)
    decreases |a|
  {
    if a != [] {
      ContainsSuffix(a[1..], b);
      assert (a + b)[1..] == a[1..] + b;
    }
  }

  lemma {:induction false} ContainsWithin(a: string, b: string, c: string)
    ensures Contains(a + b + c, b)
    decreases |a|
  {
    if a == [] {
      assert b <= a + b + c;
    } else {
      ContainsWithin(a[1..], b, c);
      assert (a + b + c)[1..] == a[1..] + b + c;
    }
  }

  /** Any name whose lower-case extension contains an allowed word passes with a matching MIME type. */
  lemma FilterAcceptsAllowed(stem: string, w: string, rest: string, mimetype: string)
    requires stem != [] && NoDot(stem) && NoDot(w + rest)
    requires w in ["jpeg", "jpg", "png", "gif", "webp", "svg"]
    requires forall i :: 0 <= i < |w + rest| ==> !('A' <= (w + rest)[i] <= 'Z')
    requires ImagePattern(mimetype)
    ensures FileFilter(stem + "." + (w + rest), mimetype)
  {
    WordInExtension(w, rest);
    FilterOnTail(stem, w + rest, mimetype);
  }

  lemma WordInExtension(w: string, rest: string)
    requires w in ["jpeg", "jpg", "png", "gif", "webp", "svg"]
    ensures ImagePattern("." + (w + rest))
  {
    ContainsWithin(".", w, rest);
    assert "." + w + rest == "." + (w + rest);
    AllowedWordMatches("." + (w + rest), w);
  }

  lemma FilterOnTail(stem: string, tail: string, mimetype: string)
    requires stem != [] && NoDot(stem) && NoDot(tail)
    requires forall i :: 0 <= i < |tail| ==> !('A' <= tail[i] <= 'Z')
    requires ImagePattern("." + tail) && ImagePattern(mimetype)
    ensures FileFilter(stem + "." + tail, mimetype)
  {
    LowerExtension(stem, tail);
  }

  /** The lower-cased extension of a name with one dot before a lower-case tail is the dot and the tail. */
  lemma LowerExtension(stem: string, tail: string)
    requires stem != [] && NoDot(stem) && NoDot(tail)
    requires forall i :: 0 <= i < |tail| ==> !('A' <= tail[i] <= 'Z')
    ensures Lower(ExtName(stem + "." + tail)) == "." + tail
  {
    var ext := "." + tail;
    var name := stem + ext;
    assert name == stem + "." + tail;
    assert ext[1..] == tail;
    LastDotAfter(stem, ext);
    assert ExtName(name) == ext by {
      assert name[0] == stem[0] != '.';
      assert name[|stem|..] == ext;
    }
    forall i | 0 <= i < |ext|
      ensures !('A' <= ext[i] <= 'Z')
    {
      if i > 0 {
        assert ext[i] == tail[i - 1];
      }
    }
    LowercaseFixed(ext);
  }

  lemma AllowedWordMatches(s: string, w: string)
    requires w in ["jpeg", "jpg", "png", "gif", "webp", "svg"]
    requires Contains(s, w)
    ensures ImagePattern(s)
  {
  }

  /** A name with no extension is refused whatever its MIME type. */
  lemma FilterRefusesBareName(name: string, mimetype: string)
    requires NoDot(name)
    ensures !FileFilter(name, mimetype)
  {
    NoDotLast(name);
    assert Lower("") == "";
  }
}
