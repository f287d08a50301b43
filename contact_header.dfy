/**
 * The links of the contact header (src/components/cv/ContactHeader.tsx):
 * phone, e-mail, LinkedIn, GitHub and a Google Maps search for the address.
 * Each contact item turns its href into a link target, putting `https://`
 * in front of anything that does not look like a link already.
 */
module ContactHeader {
  import opened Wrappers
  import opened Strings
  import opened CvTypes
  import opened UriEncoding

  const HttpsScheme := "https://"
  const MapsSite := "https://www.google.com"
  const MapsSearchUrl := MapsSite + "/maps/search/?api=1&query="

  /** The test at line 36: only the four letters `http` are looked at, not
      `http://`. */
  predicate LooksLikeLink(href: string) {
    StartsWith(href, "http") || StartsWith(href, "mailto:") || StartsWith(href, "tel:")
  }

  /** The link target for a non-empty href. */
  function NormalizeHref(href: string): (r: string)
    ensures LooksLikeLink(r)
  {
    if LooksLikeLink(href) then href
    else
      var r := HttpsScheme + href;
      assert r[..4] == "http";
      r
  }

  /** A link-like href is kept, any other gains `https://`; so the target
      always ends with the href, and normalising again changes nothing. */
  lemma NormalizeHrefShape(href: string)
    ensures LooksLikeLink(href) ==> NormalizeHref(href) == href
    ensures !LooksLikeLink(href) ==> NormalizeHref(href) == HttpsScheme + href
    ensures NormalizeHref(NormalizeHref(href)) == NormalizeHref(href)
  {
  }

  /** Because only `http` is looked for, a bare host name that begins with
      those letters is kept as it is, and the browser reads it as a path
      on this site. */
  lemma HostStartingWithHttpIsKept()
    ensures NormalizeHref("httpbin.org") == "httpbin.org"
    ensures NormalizeHref("example.org") == "https://example.org"
  {
    assert "httpbin.org"[..4] == "http";
    assert "example.org"[0] == 'e';
  }

  /** An item links only when its href is not empty (`href ? ... : ...`). */
  function ContactLink(href: string): (r: Option<string>)
    ensures r.Some? <==> href != []
  {
    if href != [] then Some(NormalizeHref(href)) else None
  }

  function PhoneHref(contact: ContactInfo): string {
    "tel:" + contact.phone
  }

  function EmailHref(contact: ContactInfo): string {
    "mailto:" + contact.email
  }

  /** The Maps search URL for the address (line 52). */
  function MapsUrl(contact: ContactInfo): string {
    MapsSearchUrl + Encode(contact.address)
  }

  /** Phone and e-mail targets are built with their scheme, so the
      normalisation passes them through, whatever the number or address. */
  lemma PhoneAndEmailPassThrough(contact: ContactInfo)
    ensures ContactLink(PhoneHref(contact)) == Some("tel:" + contact.phone)
    ensures ContactLink(EmailHref(contact)) == Some("mailto:" + contact.email)
  {
    assert PhoneHref(contact)[..4] == "tel:";
    assert EmailHref(contact)[..7] == "mailto:";
  }

  lemma MapsSearchUrlIsAscii()
    ensures IsAscii(MapsSearchUrl)
  {
    assert IsAscii("https://www.google.com") by {}
    assert IsAscii("/maps/search/?api=1&query=") by {}
    AsciiAppend(MapsSite, "/maps/search/?api=1&query=");
  }

  lemma AsciiAppend(a: string, b: string)
    requires IsAscii(a) && IsAscii(b)
    ensures IsAscii(a + b)
  {
    assert forall i | |a| <= i < |a + b| :: (a + b)[i] == b[i - |a|];
  }

  /** The Maps link begins with the search URL and the rest is the encoded
      address. */
  lemma MapsUrlParts(contact: ContactInfo)
    ensures var url := MapsUrl(contact);
            && StartsWith(url, MapsSearchUrl)
            && url[|MapsSearchUrl|..] == Encode(contact.address)
            && url[..4] == "http"
  {
    var url := MapsUrl(contact);
    assert url[..|MapsSearchUrl|] == MapsSearchUrl;
    assert url[|MapsSearchUrl|..] == Encode(contact.address);
    assert url[..4] == MapsSearchUrl[..4];
    assert MapsSearchUrl[..4] == MapsSite[..4];
    assert MapsSite[..4] == "http";
  }

  /** The Maps link is the fixed search URL followed by the encoded
      address: it is plain ASCII, the address decodes back out of it, and
      the normalisation leaves it alone. */
  lemma MapsUrlCarriesAddress(contact: ContactInfo)
    ensures var url := MapsUrl(contact);
            && StartsWith(url, MapsSearchUrl)
            && Decode(url[|MapsSearchUrl|..]) == Some(contact.address)
            && IsAscii(url)
            && ContactLink(url) == Some(url)
  {
    MapsUrlParts(contact);
    DecodeEncode(contact.address);
    EncodeAscii(contact.address);
    MapsSearchUrlIsAscii();
    AsciiAppend(MapsSearchUrl, Encode(contact.address));
  }

  /** The five items in the order the header shows them. */
  function ContactLinks(contact: ContactInfo): seq<Option<string>> {
    [ ContactLink(PhoneHref(contact)),
      ContactLink(EmailHref(contact)),
      ContactLink(contact.linkedin),
      ContactLink(contact.github),
      ContactLink(MapsUrl(contact)) ]
  }

  /** Phone, e-mail and Maps always link; LinkedIn and GitHub link when
      given; every target is a link the browser will not read as a path,
      except for the `http` quirk above. */
  lemma ContactLinksShape(contact: ContactInfo)
    ensures var links := ContactLinks(contact);
            && |links| == 5
            && links[0].Some? && links[1].Some? && links[4].Some?
            && (links[2].Some? <==> contact.linkedin != [])
            && (links[3].Some? <==> contact.github != [])
            && forall i | 0 <= i < 5 :: links[i].Some? ==> LooksLikeLink(links[i].value)
  {
    var links := ContactLinks(contact);
    PhoneAndEmailPassThrough(contact);
    MapsUrlParts(contact);
    assert links[4] == Some(MapsUrl(contact));
  }
}
