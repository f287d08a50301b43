/**
 * How an experience or education entry shows its description items
 * (`renderDescriptionItem` in src/components/cv/TimelineItem.tsx). An item
 * that starts with "website:", in any letter case, and has an address after
 * it becomes a link; every other item is shown as it is.
 */
module TimelineItem {
  import opened Strings
  import opened CvTypes

  const WebsitePrefix := "website:"
  const HttpScheme := "http://"
  const HttpsScheme := "https://"

  /** `s.toLowerCase()` restricted to ASCII letters. For the prefix test
      below this is exact: no other character lower-cases to a string that
      starts with a letter of "website" or a colon and then continues the
      word. */
  function LowerAsciiString(s: string): (r: string)
    ensures |r| == |s|
  {
    seq(|s|, i requires 0 <= i < |s| => LowerAscii(s[i]))
  }

  /** `desc.toLowerCase().startsWith('website:')`. */
  predicate HasWebsitePrefix(desc: string) {
    StartsWith(LowerAsciiString(desc), WebsitePrefix)
  }

  /** The prefix test ignores letter case: it looks only at the first eight
      characters, and they spell "website:" once lower-cased. */
  lemma WebsitePrefixIgnoresCase(desc: string)
    ensures HasWebsitePrefix(desc) <==>
              |desc| >= |WebsitePrefix| && LowerAsciiString(desc[..|WebsitePrefix|]) == WebsitePrefix
  {
    if |desc| >= |WebsitePrefix| {
      assert LowerAsciiString(desc[..|WebsitePrefix|]) == LowerAsciiString(desc)[..|WebsitePrefix|];
    }
  }

  /** Upper-case and mixed-case spellings count; a differently spelled label
      does not. */
  lemma WebsitePrefixExamples()
    ensures HasWebsitePrefix("Website: example.com")
    ensures HasWebsitePrefix("WEBSITE:x")
    ensures !HasWebsitePrefix("Web site: example.com")
  {
    assert LowerAsciiString("Website: example.com")[..8] == "website:";
    assert LowerAsciiString("WEBSITE:x")[..8] == "website:";
    assert LowerAsciiString("Web site: example.com")[3] == ' ';
  }

  predicate HasScheme(url: string) {
    StartsWith(url, HttpScheme) || StartsWith(url, HttpsScheme)
  }

  /** `https://` is put in front of an address without `http://` or
      `https://` (the test is case-sensitive). */
  function NormalizeWebsite(url: string): (r: string)
    ensures HasScheme(r)
  {
    if HasScheme(url) then url
    else
      var r := HttpsScheme + url;
      assert r[..|HttpsScheme|] == HttpsScheme;
      r
  }

  /** `url.replace(/^https?:\/\//, '')`: one leading `http://` or
      `https://` removed. */
  function LinkText(url: string): (r: string)
    ensures |r| <= |url| && r == url[|url| - |r|..]
  {
    if StartsWith(url, HttpsScheme) then url[|HttpsScheme|..]
    else if StartsWith(url, HttpScheme) then url[|HttpScheme|..]
    else url
  }

  /** Normalising twice is normalising once; an address that already has a
      scheme is left alone, any other gains exactly `https://`. */
  lemma NormalizeWebsiteIdempotent(url: string)
    ensures NormalizeWebsite(NormalizeWebsite(url)) == NormalizeWebsite(url)
    ensures HasScheme(url) ==> NormalizeWebsite(url) == url
    ensures !HasScheme(url) ==> NormalizeWebsite(url) == HttpsScheme + url
  {
  }

  /** The link shows the normalised address without its scheme, and putting
      the scheme back gives the link's target. For an address written
      without a scheme, the link shows exactly what was written. */
  lemma LinkTextOfNormalized(url: string)
    ensures var href := NormalizeWebsite(url);
            href == HttpScheme + LinkText(href) || href == HttpsScheme + LinkText(href)
    ensures !HasScheme(url) ==> LinkText(NormalizeWebsite(url)) == url
  {
    var href := NormalizeWebsite(url);
    if StartsWith(href, HttpsScheme) {
      assert href == href[..|HttpsScheme|] + href[|HttpsScheme|..];
    } else {
      assert href == href[..|HttpScheme|] + href[|HttpScheme|..];
    }
    if !HasScheme(url) {
      assert (HttpsScheme + url)[..|HttpsScheme|] == HttpsScheme;
      assert (HttpsScheme + url)[|HttpsScheme|..] == url;
    }
  }

  /** What one description item is shown as. */
  datatype DescriptionItem =
    | WebsiteLink(href: string, text: string)
    | Plain(text: string)

  /** `renderDescriptionItem`: the address is what follows the first eight
      characters, trimmed; when it is empty the item is shown as written. */
  function RenderDescriptionItem(desc: string): DescriptionItem {
    if HasWebsitePrefix(desc) then
      var url := Trim(desc[|WebsitePrefix|..]);
      if url != [] then
        var href := NormalizeWebsite(url);
        WebsiteLink(href, LinkText(href))
      else Plain(desc)
    else Plain(desc)
  }

  /** An item becomes a link exactly when it has the prefix and something
      other than whitespace after it. The link's target has a scheme and
      ends with the trimmed address; every other item keeps its text. */
  lemma RenderedItem(desc: string)
    ensures var item := RenderDescriptionItem(desc);
            && (item.WebsiteLink? <==> HasWebsitePrefix(desc) && !AllWhitespace(desc[|WebsitePrefix|..]))
            && (item.Plain? ==> item.text == desc)
            && (item.WebsiteLink? ==>
                  var url := Trim(desc[|WebsitePrefix|..]);
                  && HasScheme(item.href)
                  && (item.href == url || item.href == HttpsScheme + url)
                  && (!HasScheme(url) ==> item.text == url))
  {
    if HasWebsitePrefix(desc) {
      var url := Trim(desc[|WebsitePrefix|..]);
      if url != [] {
        LinkTextOfNormalized(url);
      }
    }
  }

  /** The description of an entry, one rendered item per string, in order. */
  function RenderDescription(event: TimelineEvent): (items: seq<DescriptionItem>)
    ensures |items| == |event.description|
  {
    seq(|event.description|, i requires 0 <= i < |event.description| =>
      RenderDescriptionItem(event.description[i]))
  }

  /** Each string of the description is shown once, at its own position:
      as itself, or as a link when it carries a website. */
  lemma RenderedDescription(event: TimelineEvent)
    ensures var items := RenderDescription(event);
            forall i | 0 <= i < |items| ::
              && (items[i].Plain? ==> items[i].text == event.description[i])
              && (items[i].WebsiteLink? ==> HasWebsitePrefix(event.description[i]) && HasScheme(items[i].href))
  {
    var items := RenderDescription(event);
    forall i | 0 <= i < |items|
      ensures items[i].Plain? ==> items[i].text == event.description[i]
      ensures items[i].WebsiteLink? ==> HasWebsitePrefix(event.description[i]) && HasScheme(items[i].href)
    {
      RenderedItem(event.description[i]);
    }
  }
}
