/** The URL shortener page: random base-62 codes, the shorten form with its three rejections,
    the list of shortened links with unique codes, deletion and the click total.
    `Math.random()` is a sequence of alphabet indices, `Date.now()` a parameter, the URL parser
    behind `isValidUrl` an uninterpreted predicate, and QR rendering an input. */
module UrlShortener {

  import opened Wrappers
  import opened Text
  import Seqs

  /** `n` consecutive characters starting at `lo`. */
  function CharRange(lo: char, n: nat): (r: string)
    requires lo as int + n <= 128
    ensures |r| == n
    ensures forall i :: 0 <= i < n ==> r[i] as int == lo as int + i
  {
    seq(n, i requires 0 <= i < n => (lo as int + i) as char)
  }

  /** `chars`: a–z, then A–Z, then 0–9. */
  const Alphabet: string := CharRange('a', 26) + CharRange('A', 26) + CharRange('0', 10)

  /** A character of the base-62 alphabet. */
  predicate IsBase62(c: char) {
    'a' <= c <= 'z' || 'A' <= c <= 'Z' || '0' <= c <= '9'
  }

  /** The alphabet has 62 characters and holds exactly the base-62 characters. */
  lemma AlphabetIsBase62(c: char)
    ensures |Alphabet| == 62
    ensures c in Alphabet <==> IsBase62(c)
  {
    if IsBase62(c) {
      var k := if 'a' <= c <= 'z' then c as int - 'a' as int
               else if 'A' <= c <= 'Z' then 26 + c as int - 'A' as int
               else 52 + c as int - '0' as int;
      assert Alphabet[k] == c;
    }
  }

  lemma AlphabetChars()
    ensures |Alphabet| == 62 && forall k :: 0 <= k < 62 ==> IsBase62(Alphabet[k])
  {
    forall k | 0 <= k < 62 ensures IsBase62(Alphabet[k]) {
      if k < 26 {
        assert Alphabet[k] == CharRange('a', 26)[k];
      } else if k < 52 {
        assert Alphabet[k] == CharRange('A', 26)[k - 26];
      } else {
        assert Alphabet[k] == CharRange('0', 10)[k - 52];
      }
    }
  }

  /** The code the loop of `generateShortCode` builds from the six random draws
      `Math.floor(Math.random() * 62)`. */
  function CodeFor(picks: seq<nat>): (code: string)
    requires |picks| == 6 && forall i :: 0 <= i < 6 ==> picks[i] < 62
    ensures |code| == 6
    ensures forall i :: 0 <= i < 6 ==> IsBase62(code[i])
  {
    AlphabetChars();
    seq(6, i requires 0 <= i < 6 => Alphabet[picks[i]])
  }

  /** `generateShortCode` */
  method GenerateShortCode(picks: seq<nat>) returns (code: string)
    requires |picks| == 6 && forall i :: 0 <= i < 6 ==> picks[i] < 62
    ensures code == CodeFor(picks)
  {
    code := "";
    for i := 0 to 6
      invariant code == CodeFor(picks)[..i]
    {
      code := code + [Alphabet[picks[i]]];
    }
  }

  /** Every six-character base-62 code can be drawn: the generator misses no code. */
  lemma EveryCodeCanBeDrawn(code: string) returns (picks: seq<nat>)
    requires |code| == 6 && forall i :: 0 <= i < 6 ==> IsBase62(code[i])
    ensures |picks| == 6 && (forall i :: 0 <= i < 6 ==> picks[i] < 62) && CodeFor(picks) == code
  {
    picks := seq(6, i requires 0 <= i < 6 =>
      var c := code[i];
      if 'a' <= c <= 'z' then c as int - 'a' as int
      else if 'A' <= c <= 'Z' then 26 + c as int - 'A' as int
      else 52 + c as int - '0' as int);
    forall i | 0 <= i < 6 ensures Alphabet[picks[i]] == code[i] {
      AlphabetIsBase62(code[i]);
    }
  }

  /** The characters the custom-code input lets through: `[a-zA-Z0-9-_]`. */
  predicate IsCodeInputChar(c: char) {
    IsBase62(c) || c == '-' || c == '_'
  }

  /** The custom-code input: at most 30 characters typed (`maxLength`), then
      `replace(/[^a-zA-Z0-9-_]/g, '')`. */
  function SanitizeCode(typed: string): (r: string)
    ensures |r| <= 30
    ensures forall i :: 0 <= i < |r| ==> IsCodeInputChar(r[i])
  {
    Seqs.Filter(Seqs.Take(typed, 30), IsCodeInputChar)
  }

  /** Sanitising keeps exactly the allowed characters of what was typed, in order, and a second
      pass changes nothing. */
  lemma SanitizeCodeExact(typed: string, c: char)
    ensures c in SanitizeCode(typed) <==> c in Seqs.Take(typed, 30) && IsCodeInputChar(c)
    ensures Seqs.IsSubsequence(SanitizeCode(typed), Seqs.Take(typed, 30))
    ensures SanitizeCode(SanitizeCode(typed)) == SanitizeCode(typed)
  {
    Seqs.FilterMembership(Seqs.Take(typed, 30), IsCodeInputChar, c);
    Seqs.FilterIsSubsequence(Seqs.Take(typed, 30), IsCodeInputChar);
    var r := SanitizeCode(typed);
    Seqs.FilterKeepsAll(r, IsCodeInputChar);
  }

  /** `ShortenedURL`; `lastClicked` is never set on this page and is left out. */
  datatype ShortenedURL = ShortenedURL(id: string, originalUrl: string, shortCode: string,
                                       createdAt: int, clicks: int)

  /** No two entries share a short code. */
  predicate UniqueCodes(urls: seq<ShortenedURL>) {
    forall i, j :: 0 <= i < j < |urls| ==> urls[i].shortCode != urls[j].shortCode
  }

  /** `urls.find(u => u.shortCode === shortCode)` is defined. */
  predicate CodeTaken(urls: seq<ShortenedURL>, code: string) {
    exists i :: 0 <= i < |urls| && urls[i].shortCode == code
  }

  /** Adding an entry whose code is free keeps the codes unique. */
  lemma PrependKeepsUnique(u: ShortenedURL, urls: seq<ShortenedURL>)
    requires UniqueCodes(urls) && !CodeTaken(urls, u.shortCode)
    ensures UniqueCodes([u] + urls)
  {
    var r := [u] + urls;
    forall i, j | 0 <= i < j < |r| ensures r[i].shortCode != r[j].shortCode {
      if i == 0 {
        assert r[j] == urls[j - 1];
      } else {
        assert r[i] == urls[i - 1] && r[j] == urls[j - 1];
      }
    }
  }

  /** `urls.filter(u => u.id !== id)` */
  function DeleteUrls(urls: seq<ShortenedURL>, id: string): (r: seq<ShortenedURL>)
    ensures |r| <= |urls|
    ensures forall i :: 0 <= i < |r| ==> r[i].id != id
  {
    Seqs.Filter(urls, (u: ShortenedURL) => u.id != id)
  }

  /** Deletion keeps exactly the entries with another id, in their order. */
  lemma DeleteUrlsExact(urls: seq<ShortenedURL>, id: string, u: ShortenedURL)
    ensures u in DeleteUrls(urls, id) <==> u in urls && u.id != id
    ensures Seqs.IsSubsequence(DeleteUrls(urls, id), urls)
  {
    Seqs.FilterMembership(urls, (x: ShortenedURL) => x.id != id, u);
    Seqs.FilterIsSubsequence(urls, (x: ShortenedURL) => x.id != id);
  }

  /** Deletion keeps the codes unique. */
  lemma {:induction false} DeleteKeepsUnique(urls: seq<ShortenedURL>, id: string)
    requires UniqueCodes(urls)
    ensures UniqueCodes(DeleteUrls(urls, id))
  {
    if urls != [] {
      var tail := urls[1..];
      assert UniqueCodes(tail) by {
        forall i, j | 0 <= i < j < |tail| ensures tail[i].shortCode != tail[j].shortCode {
          assert tail[i] == urls[i + 1] && tail[j] == urls[j + 1];
        }
      }
      DeleteKeepsUnique(tail, id);
      var rest := DeleteUrls(tail, id);
      if urls[0].id != id {
        assert DeleteUrls(urls, id) == [urls[0]] + rest;
        assert !CodeTaken(rest, urls[0].shortCode) by {
          forall i | 0 <= i < |rest| ensures rest[i].shortCode != urls[0].shortCode {
            DeleteUrlsExact(tail, id, rest[i]);
            var k :| 0 <= k < |tail| && tail[k] == rest[i];
            assert urls[k + 1] == rest[i];
          }
        }
        PrependKeepsUnique(urls[0], rest);
      } else {
        assert DeleteUrls(urls, id) == rest;
      }
    }
  }

  /** `totalClicks`: `urls.reduce((sum, url) => sum + url.clicks, 0)`. With no negative counts
      the total is at least each link's count. */
  function TotalClicks(urls: seq<ShortenedURL>): (t: int)
    ensures (forall i :: 0 <= i < |urls| ==> urls[i].clicks >= 0) ==>
      t >= 0 && forall i :: 0 <= i < |urls| ==> urls[i].clicks <= t
  {
    if urls == [] then 0 else urls[0].clicks + TotalClicks(urls[1..])
  }

  /** The total of two lists together is the sum of their totals, whatever the order. */
  lemma {:induction false} TotalClicksAppend(a: seq<ShortenedURL>, b: seq<ShortenedURL>)
    ensures TotalClicks(a + b) == TotalClicks(a) + TotalClicks(b)
    ensures TotalClicks(a + b) == TotalClicks(b + a)
  {
    TotalClicksConcat(a, b);
    TotalClicksConcat(b, a);
  }

  lemma {:induction false} TotalClicksConcat(a: seq<ShortenedURL>, b: seq<ShortenedURL>)
    ensures TotalClicks(a + b) == TotalClicks(a) + TotalClicks(b)
  {
    if a == [] {
      assert a + b == b;
    } else {
      TotalClicksConcat(a[1..], b);
      assert (a + b)[1..] == a[1..] + b;
    }
  }

  /** Deleting an id removes exactly the clicks of the deleted entries from the total. */
  lemma {:induction false} DeleteSplitsClicks(urls: seq<ShortenedURL>, id: string)
    ensures TotalClicks(urls) ==
      TotalClicks(DeleteUrls(urls, id)) + TotalClicks(Seqs.Filter(urls, (u: ShortenedURL) => u.id == id))
  {
    if urls != [] {
      DeleteSplitsClicks(urls[1..], id);
      var kept := Seqs.Filter(urls, (u: ShortenedURL) => u.id != id);
      var gone := Seqs.Filter(urls, (u: ShortenedURL) => u.id == id);
      if urls[0].id == id {
        assert kept == DeleteUrls(urls[1..], id);
        assert gone == [urls[0]] + Seqs.Filter(urls[1..], (u: ShortenedURL) => u.id == id);
      } else {
        assert kept == [urls[0]] + DeleteUrls(urls[1..], id);
        assert gone == Seqs.Filter(urls[1..], (u: ShortenedURL) => u.id == id);
      }
    }
  }

  /** The short code of a new link: the trimmed custom code, or the generated one when that is empty. */
  function ChosenCode(customCode: string, generated: string): (code: string)
    ensures Trim(customCode) != [] ==> code == Trim(customCode)
    ensures Trim(customCode) == [] ==> code == generated
  {
    var custom := Trim(customCode);
    if custom != [] then custom else generated
  }

  const BlankUrlText: string := "Masukkan URL yang valid"
  const BadFormatText: string := "Format URL tidak valid. Contoh: https://example.com"
  const CodeTakenText: string := "Kode pendek sudah digunakan. Gunakan kode lain."

  /** What a press of the shorten button decides. */
  datatype ShortenOutcome = Rejected(message: string) | Added(entry: ShortenedURL)

  /** The checks of `handleShorten` in order: a blank URL, then the URL format, then the code
      already in use; otherwise a new link with no clicks. `valid` is `urlIsValid`. */
  function Shorten(urls: seq<ShortenedURL>, originalUrl: string, customCode: string,
                   generated: string, valid: bool, now: nat): (r: ShortenOutcome)
    ensures IsBlank(originalUrl) ==> r == Rejected(BlankUrlText)
    ensures !IsBlank(originalUrl) && !valid ==> r == Rejected(BadFormatText)
    ensures !IsBlank(originalUrl) && valid ==>
      (r == Rejected(CodeTakenText) <==> CodeTaken(urls, ChosenCode(customCode, generated)))
    ensures r.Added? ==>
      && r.entry == ShortenedURL("url-" + NatToString(now), originalUrl, ChosenCode(customCode, generated), now, 0)
      && !CodeTaken(urls, r.entry.shortCode)
  {
    if IsBlank(originalUrl) then Rejected(BlankUrlText)
    else if !valid then Rejected(BadFormatText)
    else
      var code := ChosenCode(customCode, generated);
      if CodeTaken(urls, code) then Rejected(CodeTakenText)
      else Added(ShortenedURL("url-" + NatToString(now), originalUrl, code, now, 0))
  }

  /** With a custom code given, no generated code is used. */
  lemma CustomCodeWins(urls: seq<ShortenedURL>, originalUrl: string, customCode: string,
                       g1: string, g2: string, valid: bool, now: nat)
    requires !IsBlank(customCode)
    ensures Shorten(urls, originalUrl, customCode, g1, valid, now) == Shorten(urls, originalUrl, customCode, g2, valid, now)
  {
    BlankIffTrimsToEmpty(customCode);
    assert ChosenCode(customCode, g1) == ChosenCode(customCode, g2);
  }

  /** A link list with unique codes keeps them unique through a shorten, grows by exactly one
      entry and keeps its click total. */
  lemma ShortenKeepsInvariants(urls: seq<ShortenedURL>, originalUrl: string, customCode: string,
                               generated: string, valid: bool, now: nat)
    ensures var r := Shorten(urls, originalUrl, customCode, generated, valid, now);
      r.Added? && UniqueCodes(urls) ==> UniqueCodes([r.entry] + urls) && TotalClicks([r.entry] + urls) == TotalClicks(urls)
  {
    var r := Shorten(urls, originalUrl, customCode, generated, valid, now);
    if r.Added? && UniqueCodes(urls) {
      PrependKeepsUnique(r.entry, urls);
      assert ([r.entry] + urls)[1..] == urls;
    }
  }

  /** The body of `handleShorten` up to its outcome: the random code is drawn only when no
      custom code is given, and the outcome is the same as with the code drawn in any case. */
  method ShortenStep(urls: seq<ShortenedURL>, originalUrl: string, customCode: string,
                     picks: seq<nat>, valid: bool, now: nat) returns (outcome: ShortenOutcome)
    requires |picks| == 6 && forall i :: 0 <= i < 6 ==> picks[i] < 62
    ensures outcome == Shorten(urls, originalUrl, customCode, CodeFor(picks), valid, now)
  {
    var generated := "";
    if IsBlank(customCode) {
      generated := GenerateShortCode(picks);
    } else {
      CustomCodeWins(urls, originalUrl, customCode, generated, CodeFor(picks), valid, now);
    }
    outcome := Shorten(urls, originalUrl, customCode, generated, valid, now);
  }

  /** The page's state. */
  class UrlShortenerPage {
    var originalUrl: string
    var customCode: string
    var urls: seq<ShortenedURL>
    var selectedUrl: Option<ShortenedURL>
    var qrCodeUrl: Option<string>
    var error: Option<string>
    /** The list under the links key of browser storage (an absent key reads as empty). */
    var stored: seq<ShortenedURL>

    /** The page after the stored links were read. */
    constructor (saved: seq<ShortenedURL>)
      ensures urls == saved && stored == saved && originalUrl == [] && customCode == []
      ensures selectedUrl == None && qrCodeUrl == None && error == None
    {
      originalUrl, customCode, urls, stored := [], [], saved, saved;
      selectedUrl, qrCodeUrl, error := None, None, None;
    }

    /** The long-URL input: the typed text is kept as is. */
    method SetOriginalUrl(typed: string)
      modifies this
      ensures originalUrl == typed
      ensures urls == old(urls) && customCode == old(customCode) && error == old(error)
      ensures selectedUrl == old(selectedUrl) && qrCodeUrl == old(qrCodeUrl) && stored == old(stored)
    {
      originalUrl := typed;
    }

    /** The custom-code input. */
    method SetCustomCode(typed: string)
      modifies this
      ensures customCode == SanitizeCode(typed)
      ensures urls == old(urls) && originalUrl == old(originalUrl) && error == old(error)
      ensures selectedUrl == old(selectedUrl) && qrCodeUrl == old(qrCodeUrl) && stored == old(stored)
    {
      customCode := SanitizeCode(typed);
    }

    /** `handleShorten`. `urlIsValid` is what `isValidUrl` says of the URL in the form; `picks` are
        the random draws, used only when no custom code is given. */
    method HandleShorten(urlIsValid: bool, picks: seq<nat>, now: nat)
      requires |picks| == 6 && forall i :: 0 <= i < 6 ==> picks[i] < 62
      modifies this
      ensures var r := Shorten(old(urls), old(originalUrl), old(customCode), CodeFor(picks), urlIsValid, now);
        && (r.Rejected? ==>
              && error == Some(r.message) && urls == old(urls) && stored == old(stored)
              && originalUrl == old(originalUrl) && customCode == old(customCode))
        && (r.Added? ==>
              && error == None && urls == [r.entry] + old(urls) && stored == urls
              && originalUrl == [] && customCode == [])
      ensures old(UniqueCodes(urls)) ==> UniqueCodes(urls)
      ensures unchanged(`selectedUrl, `qrCodeUrl)
    {
      var links := urls;
      var outcome := ShortenStep(links, originalUrl, customCode, picks, urlIsValid, now);
      ShortenKeepsInvariants(links, originalUrl, customCode, CodeFor(picks), urlIsValid, now);
      if outcome.Rejected? {
        error := Some(outcome.message);
      } else {
        var updated := [outcome.entry] + links;
        urls, stored, originalUrl, customCode, error := updated, updated, [], [], None;
      }
    }

    /** `handleDelete`: the selection and its QR code go when the selected link is deleted. */
    method HandleDelete(id: string)
      modifies this
      ensures urls == DeleteUrls(old(urls), id) && stored == urls
      ensures old(selectedUrl).Some? && old(selectedUrl).value.id == id ==> selectedUrl == None && qrCodeUrl == None
      ensures !(old(selectedUrl).Some? && old(selectedUrl).value.id == id) ==>
        selectedUrl == old(selectedUrl) && qrCodeUrl == old(qrCodeUrl)
      ensures old(UniqueCodes(urls)) ==> UniqueCodes(urls)
      ensures originalUrl == old(originalUrl) && customCode == old(customCode) && error == old(error)
    {
      if UniqueCodes(urls) {
        DeleteKeepsUnique(urls, id);
      }
      urls := DeleteUrls(urls, id);
      stored := urls;
      if selectedUrl.Some? && selectedUrl.value.id == id {
        selectedUrl := None;
        qrCodeUrl := None;
      }
    }

    /** `handleShowQR`; the rendered QR image is an input. */
    method HandleShowQR(u: ShortenedURL, qrData: string)
      modifies this
      ensures selectedUrl == Some(u) && qrCodeUrl == Some(qrData)
      ensures urls == old(urls) && error == old(error)
      ensures originalUrl == old(originalUrl) && customCode == old(customCode) && stored == old(stored)
    {
      selectedUrl := Some(u);
      qrCodeUrl := Some(qrData);
    }
  }
}
