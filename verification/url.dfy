/** The address of the booking page for one date. */
module Url {
  import opened Text

  const Host := "kilmainhamgaol.admit-one.eu"
  /** Everything before the date. */
  const UrlPrefix := "https://" + Host + "/?p=details&ga=1&dt="
  /** Everything after the date. */
  const UrlSuffix := "&ev=TOUR"
  /** `https://kilmainhamgaol.admit-one.eu/?p=details&ga=1&dt={date}&ev=TOUR`,
      written as its three parts so that its shape is evident. */
  const UrlTemplate := UrlPrefix + "{date}" + UrlSuffix

  /** The fixed parts of the template hold no brace, so `{date}` is its only
      replacement field. */
  lemma UrlPartsBraceFree()
    ensures BraceFree(UrlPrefix) && BraceFree(UrlSuffix)
  {
    assert BraceFree("https://");
    assert BraceFree(Host);
    assert BraceFree("/?p=details&ga=1&dt=");
  }

  /** The booking page address for `date`: `UrlTemplate.format(date=date)`.
      The date lands verbatim between the fixed prefix and `&ev=TOUR`, even
      when it holds braces itself. */
  function FetchUrl(date: string): (url: string)
    ensures url == UrlPrefix + date + UrlSuffix
    ensures |url| == |UrlPrefix| + |date| + 8
  {
    UrlPartsBraceFree();
    assert UrlTemplate == UrlPrefix + "{" + "date" + "}" + UrlSuffix;
    FormatOneField(UrlPrefix, "date", UrlSuffix, date);
    Format(UrlTemplate, "date", date).value
  }
}
