/** Generated names: `helpers/string_helper.go` and `apis/helpers.go`.

    `Md5Base36` is passed as the parameter `md5`; all that is used of it is what `IsDigest`
    says.  Strings are sequences of ASCII characters, so `|s|` is the length in bytes. */
module Names {

  ghost predicate IsDigest(md5: string -> string) {
    forall s {:trigger md5(s)} ::
      |md5(s)| >= 10 && forall i | 0 <= i < |md5(s)| :: '0' <= md5(s)[i] <= '9' || 'a' <= md5(s)[i] <= 'z'
  }

  predicate IsDbChar(c: char) {
    'a' <= c <= 'z' || 'A' <= c <= 'Z' || '0' <= c <= '9' || c == '_'
  }

  predicate IsDbName(s: string) {
    forall i | 0 <= i < |s| :: IsDbChar(s[i])
  }

  predicate IsDashedDbName(s: string) {
    forall i | 0 <= i < |s| :: IsDbChar(s[i]) || s[i] == '-'
  }

  function ReplaceChar(s: string, from: char, to: char): (r: string)
    ensures |r| == |s|
    ensures forall i | 0 <= i < |s| :: r[i] == if s[i] == from then to else s[i]
  {
    seq(|s|, i requires 0 <= i < |s| => if s[i] == from then to else s[i])
  }

  function KeepDbChars(s: string): (r: string)
    ensures IsDbName(r) && |r| <= |s|
    ensures IsDbName(s) ==> r == s
  {
    if s == "" then "" else (if IsDbChar(s[0]) then [s[0]] else "") + KeepDbChars(s[1..])
  }

  /** Dashes become underscores; everything else outside `[A-Za-z0-9_]` is dropped. */
  function SanitiseDbValue(value: string): (r: string)
    ensures IsDbName(r) && |r| <= |value|
    ensures IsDbName(value) ==> r == value
  {
    KeepDbChars(ReplaceChar(value, '-', '_'))
  }

  function SanitiseAndShortenDbValue(md5: string -> string, value: string, maxLength: int): (r: string)
    requires IsDigest(md5)
    ensures IsDbName(r)
    ensures maxLength >= 10 ==> |r| <= maxLength
  {
    var sanitised := SanitiseDbValue(value);
    if |sanitised| > maxLength then md5(sanitised)[0..10] else sanitised
  }

  function ShortenHumanReadableValue(md5: string -> string, value: string, maxLength: int): (r: string)
    requires IsDigest(md5)
    ensures |value| <= maxLength ==> r == value
    ensures |r| <= maxLength <==> |value| <= maxLength || maxLength >= 10
  {
    if |value| > maxLength then
      if maxLength <= 11 then md5(value)[0..10]
      else value[0..maxLength - 11] + "-" + md5(value)[0..10]
    else value
  }

  /** What the loop of `MakeObjectName` accumulates. */
  function JoinSuffixes(suffixes: seq<string>): string {
    if suffixes == [] then ""
    else JoinSuffixes(suffixes[..|suffixes| - 1]) + "-" + suffixes[|suffixes| - 1]
  }

  function ObjectName(md5: string -> string, baseName: string, suffixes: seq<string>): string
    requires IsDigest(md5)
  {
    ShortenHumanReadableValue(md5, baseName, 63 - |JoinSuffixes(suffixes)|) + JoinSuffixes(suffixes)
  }

  method MakeObjectName(md5: string -> string, baseName: string, suffixes: seq<string>) returns (name: string)
    requires IsDigest(md5)
    ensures name == ObjectName(md5, baseName, suffixes)
  {
    var suffix := "";
    for i := 0 to |suffixes|
      invariant suffix == JoinSuffixes(suffixes[..i])
    {
      assert suffixes[..i + 1][..i] == suffixes[..i];
      suffix := suffix + "-" + suffixes[i];
    }
    assert suffixes[..|suffixes|] == suffixes;
    name := ShortenHumanReadableValue(md5, baseName, 63 - |suffix|) + suffix;
  }

  /** A generated object name fits the 63-octet label limit of section 2.3.4 of RFC 1035 exactly
      when the joined suffix leaves room for a digest, or nothing had to be shortened.  The
      helper itself never checks the length of the suffix. */
  lemma ObjectNameFits(md5: string -> string, baseName: string, suffixes: seq<string>)
    requires IsDigest(md5)
    ensures |ObjectName(md5, baseName, suffixes)| <= 63 <==>
            |JoinSuffixes(suffixes)| <= 53 || |baseName| + |JoinSuffixes(suffixes)| <= 63
    ensures |baseName| + |JoinSuffixes(suffixes)| <= 63 ==>
              ObjectName(md5, baseName, suffixes) == baseName + JoinSuffixes(suffixes)
  {
    var limit := 63 - |JoinSuffixes(suffixes)|;
    var head := ShortenHumanReadableValue(md5, baseName, limit);
    assert |head| <= limit <==> |baseName| <= limit || limit >= 10;
    assert |ObjectName(md5, baseName, suffixes)| == |head| + |JoinSuffixes(suffixes)|;
  }

  function MakeDatabaseName(md5: string -> string, siteDbName: string, shortName: string): string
    requires IsDigest(md5)
  {
    ReplaceChar(
      ShortenHumanReadableValue(md5, SanitiseDbValue(siteDbName) + "_" + SanitiseDbValue(shortName), 63),
      '-', '_')
  }

  function MakeUsername(md5: string -> string, siteUsername: string, shortName: string): string
    requires IsDigest(md5)
  {
    SanitiseAndShortenDbValue(md5, siteUsername + "_" + shortName, 16)
  }

  lemma ShortenedKeepsCharset(md5: string -> string, value: string, maxLength: int)
    requires IsDigest(md5) && IsDbName(value)
    ensures IsDashedDbName(ShortenHumanReadableValue(md5, value, maxLength))
  {
    var tail := md5(value)[0..10];
    assert IsDashedDbName(tail);
  }

  /** For every site and service, whatever characters and lengths the fields have. */
  lemma DatabaseNamesFit(md5: string -> string, siteDbName: string, siteUsername: string, shortName: string)
    requires IsDigest(md5)
    ensures IsDbName(MakeDatabaseName(md5, siteDbName, shortName))
    ensures |MakeDatabaseName(md5, siteDbName, shortName)| <= 63
    ensures IsDbName(MakeUsername(md5, siteUsername, shortName))
    ensures |MakeUsername(md5, siteUsername, shortName)| <= 16
  {
    var joined := SanitiseDbValue(siteDbName) + "_" + SanitiseDbValue(shortName);
    assert IsDbName(joined);
    ShortenedKeepsCharset(md5, joined, 63);
  }

  /** The slice without every occurrence of `s`, the rest in order: what the loop of
      `RemoveStringFromSlice` accumulates. */
  function Without(slice: seq<string>, s: string): (r: seq<string>)
    ensures s !in r
    ensures forall x | x != s :: multiset(r)[x] == multiset(slice)[x]
    ensures s !in slice ==> r == slice
    ensures |r| <= |slice| && (|r| == |slice| <==> s !in slice)
  {
    if slice == [] then []
    else
      assert slice == slice[..|slice| - 1] + [slice[|slice| - 1]];
      var init := Without(slice[..|slice| - 1], s);
      if slice[|slice| - 1] == s then init else init + [slice[|slice| - 1]]
  }

  method RemoveStringFromSlice(slice: seq<string>, s: string) returns (result: seq<string>)
    ensures result == Without(slice, s)
  {
    result := [];
    for i := 0 to |slice|
      invariant result == Without(slice[..i], s)
    {
      assert slice[..i + 1][..i] == slice[..i];
      if slice[i] != s {
        result := result + [slice[i]];
      }
    }
    assert slice[..|slice|] == slice;
  }

  /** Removal keeps the order: it distributes over concatenation. */
  lemma {:induction false} WithoutKeepsOrder(a: seq<string>, b: seq<string>, s: string)
    ensures Without(a + b, s) == Without(a, s) + Without(b, s)
  {
    if b == [] {
      assert a + b == a;
    } else {
      assert (a + b)[..|a + b| - 1] == a + b[..|b| - 1];
      WithoutKeepsOrder(a, b[..|b| - 1], s);
    }
  }

  method SliceContainsString(slice: seq<string>, s: string) returns (found: bool)
    ensures found <==> s in slice
  {
    for i := 0 to |slice|
      invariant s !in slice[..i]
    {
      if slice[i] == s {
        return true;
      }
    }
    found := false;
  }
}
