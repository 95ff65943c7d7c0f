/** What the generated names keep of the values they are made of (`helpers/string_helper.go:35-59`,
    `apis/helpers.go:11-28`). */
module NameOutcomes {
  import opened Names

  /** Two long values whose digests differ in the first ten characters stay different, and keep their
      beginnings where there is room. */
  lemma ShortenedDiffer(md5: string -> string, a: string, b: string, maxLength: int)
    requires IsDigest(md5) && 10 <= maxLength < |a| && maxLength < |b| && md5(a)[..10] != md5(b)[..10]
    ensures ShortenHumanReadableValue(md5, a, maxLength) != ShortenHumanReadableValue(md5, b, maxLength)
    ensures maxLength > 11 ==> a[..maxLength - 11] <= ShortenHumanReadableValue(md5, a, maxLength)
  {
    var x, y := ShortenHumanReadableValue(md5, a, maxLength), ShortenHumanReadableValue(md5, b, maxLength);
    assert x[|x| - 10..] == md5(a)[..10] && y[|y| - 10..] == md5(b)[..10];
  }

  /** The same for database values, by what is left of them after sanitising. */
  lemma ShortenedDbValuesDiffer(md5: string -> string, a: string, b: string, maxLength: int)
    requires IsDigest(md5) && maxLength < |SanitiseDbValue(a)| && maxLength < |SanitiseDbValue(b)|
    ensures md5(SanitiseDbValue(a))[..10] != md5(SanitiseDbValue(b))[..10] <==>
            SanitiseAndShortenDbValue(md5, a, maxLength) != SanitiseAndShortenDbValue(md5, b, maxLength)
  {
    assert md5(SanitiseDbValue(a))[0..10] == md5(SanitiseDbValue(a))[..10];
  }

  /** Names that need neither sanitising nor shortening are the two parts joined by an underscore. */
  lemma PlainNames(md5: string -> string, siteValue: string, shortName: string)
    requires IsDigest(md5) && IsDbName(siteValue) && IsDbName(shortName)
    ensures |siteValue| + |shortName| < 63 ==>
              MakeDatabaseName(md5, siteValue, shortName) == siteValue + "_" + shortName
    ensures |siteValue| + |shortName| < 16 ==>
              MakeUsername(md5, siteValue, shortName) == siteValue + "_" + shortName
    ensures JoinSuffixes([siteValue]) == "-" + siteValue
    ensures JoinSuffixes([siteValue, shortName]) == "-" + siteValue + "-" + shortName
  {
    var joined := siteValue + "_" + shortName;
    assert IsDbName(joined);
    assert [siteValue][..0] == [] && [siteValue, shortName][..1] == [siteValue];
    assert JoinSuffixes([]) == "";
  }
}
