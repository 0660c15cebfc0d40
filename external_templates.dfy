/** `src/utils/fetchExternalTemplates.js`: turning the posts of Reddit's
    r/memes listings or Imgflip's meme list into meme templates ready to
    store. Candidates are de-duplicated by URL, the 20 most popular kept,
    and each one whose image could be read is given a file name and a
    fetch time. The network requests, the CORS proxies and the conversion
    of an image to a data URL are parameters of the model. */
module ExternalTemplates {
  import opened Optional
  import opened JsStrings
  import opened JsArrays

  /** The `metadata` object of a candidate, per source. */
  datatype Meta =
    | ImgflipMeta(boxCount: int, width: int, height: int, originalId: string)
    | RedditMeta(upvotes: int, score: int, author: string, subreddit: string, created: int, permalink: string)

  /** A template found at a source, before its image is read. */
  datatype Candidate = Candidate(name: string, url: string, source: string, description: string, metadata: Meta)

  /** A template ready to store; `fetchedAt` is a `Date.now()` reading. */
  datatype Stored = Stored(name: string, description: string, source: string, originalUrl: string, imageData: string,
                           fileName: string, filePath: string, metadata: Meta, fetchedAt: int)

  /** `metadata.popularity || 0`: Imgflip's box count, Reddit's score. */
  function Popularity(c: Candidate): int
  {
    match c.metadata
    case ImgflipMeta(boxCount, _, _, _) => boxCount
    case RedditMeta(_, score, _, _, _, _) => score
  }

  // ---------------------------------------------------------------- Imgflip

  datatype ImgflipMeme = ImgflipMeme(id: string, name: string, url: string, width: int, height: int, boxCount: int)

  /** The body of `get_memes`: `success` and `data.memes`, if present. */
  datatype ImgflipBody = ImgflipBody(success: bool, memes: Option<seq<ImgflipMeme>>)

  function BoxCount(m: ImgflipMeme): int
  {
    m.boxCount
  }

  function ImgflipCandidate(m: ImgflipMeme): Candidate
  {
    Candidate(m.name, m.url, "imgflip",
              "Popular meme template \"" + m.name + "\" with " + IntToString(m.boxCount) + " text boxes",
              ImgflipMeta(m.boxCount, m.width, m.height, m.id))
  }

  /** `memes.map(...)`. */
  function ImgflipCandidates(memes: seq<ImgflipMeme>): seq<Candidate>
  {
    seq(|memes|, k requires 0 <= k < |memes| => ImgflipCandidate(memes[k]))
  }

  /** `fetchFromImgflip()`: with a successful reply, the ten memes with the
      most text boxes, most first; otherwise nothing. `reply` is `None` when
      the request or its JSON failed. */
  function FromImgflip(reply: Option<ImgflipBody>): (r: seq<Candidate>)
    ensures |r| <= 10
    ensures reply.None? || !reply.value.success || reply.value.memes.None? ==> r == []
  {
    if reply.Some? && reply.value.success && reply.value.memes.Some? then
      ImgflipCandidates(Take(SortDesc(reply.value.memes.value, BoxCount), 10))
    else []
  }

  /** The Imgflip candidates come most text boxes first, ten at most. */
  lemma ImgflipSorted(memes: seq<ImgflipMeme>)
    ensures var r := FromImgflip(Some(ImgflipBody(true, Some(memes))));
            && |r| == (if |memes| < 10 then |memes| else 10)
            && forall i, j :: 0 <= i < j < |r| ==> Popularity(r[i]) >= Popularity(r[j])
  {
    var sorted := SortDesc(memes, BoxCount);
    var top := Take(sorted, 10);
    var r := ImgflipCandidates(top);
    forall i, j | 0 <= i < j < |r| ensures Popularity(r[i]) >= Popularity(r[j]) {
      assert top[i] == sorted[i] && top[j] == sorted[j];
      assert Popularity(r[i]) == top[i].boxCount && Popularity(r[j]) == top[j].boxCount;
    }
  }

  /** Each Imgflip candidate is made from one of the memes. */
  lemma ImgflipFromMemes(memes: seq<ImgflipMeme>)
    ensures var r := FromImgflip(Some(ImgflipBody(true, Some(memes))));
            forall k :: 0 <= k < |r| ==> r[k] in ImgflipCandidates(memes)
  {
    var top := Take(SortDesc(memes, BoxCount), 10);
    TakeSortedIsTop(memes, BoxCount, 10);
    CandidatesFrom(memes, top);
  }

  /** The Imgflip candidates are the top ten by box count: a meme left out
      has no more boxes than any meme taken. */
  lemma ImgflipTopTen(memes: seq<ImgflipMeme>)
    ensures var r := FromImgflip(Some(ImgflipBody(true, Some(memes))));
            forall j :: 0 <= j < |memes| ==>
              ImgflipCandidate(memes[j]) in r || forall k :: 0 <= k < |r| ==> Popularity(r[k]) >= memes[j].boxCount
  {
    var top := Take(SortDesc(memes, BoxCount), 10);
    var r := ImgflipCandidates(top);
    TakeSortedIsTop(memes, BoxCount, 10);
    forall j | 0 <= j < |memes|
      ensures ImgflipCandidate(memes[j]) in r || forall k :: 0 <= k < |r| ==> Popularity(r[k]) >= memes[j].boxCount
    {
      if memes[j] in top {
        var k :| 0 <= k < |top| && top[k] == memes[j];
        assert r[k] == ImgflipCandidate(memes[j]);
      } else {
        assert forall k :: 0 <= k < |r| ==> Popularity(r[k]) == top[k].boxCount;
      }
    }
  }

  lemma CandidatesFrom(memes: seq<ImgflipMeme>, top: seq<ImgflipMeme>)
    requires multiset(top) <= multiset(memes)
    ensures forall k :: 0 <= k < |top| ==> ImgflipCandidates(top)[k] in ImgflipCandidates(memes)
  {
    forall k | 0 <= k < |top| ensures ImgflipCandidates(top)[k] in ImgflipCandidates(memes) {
      var m := top[k];
      assert m in multiset(top);
      assert m in multiset(memes);
      var i :| 0 <= i < |memes| && memes[i] == m;
      assert ImgflipCandidates(top)[k] == ImgflipCandidates(memes)[i];
    }
  }

  // ----------------------------------------------------------------- Reddit

  /** The fields of a listing post that the mapping reads; `url` is the
      empty string when the post has none. */
  datatype RedditPost = RedditPost(url: string, title: string, score: int, ups: int, author: string,
                                   subreddit: string, created: int, permalink: string)

  /** `/\.(jpg|jpeg|png|gif|webp)$/i`. */
  predicate HasImageExtension(url: string)
  {
    var u := LowerAscii(url);
    EndsWith(u, ".jpg") || EndsWith(u, ".jpeg") || EndsWith(u, ".png") || EndsWith(u, ".gif") || EndsWith(u, ".webp")
  }

  /** The post filter: an image file, or a link to Reddit's or Imgur's image hosts. */
  predicate IsImagePost(p: RedditPost)
  {
    HasImageExtension(p.url) || Contains(p.url, "i.redd.it") || Contains(p.url, "imgur.com")
  }

  /** `title.substring(0, 50) || 'Reddit Meme'`. */
  function RedditName(title: string): (name: string)
    ensures name == (if title == "" then "Reddit Meme" else title[..if |title| < 50 then |title| else 50])
    ensures 1 <= |name| <= 50
  {
    var cut := Take(title, 50);
    if cut == "" then "Reddit Meme" else cut
  }

  function RedditCandidate(p: RedditPost): Candidate
  {
    Candidate(RedditName(p.title), p.url, "reddit",
              p.title + " - " + IntToString(p.score) + " upvotes on r/" + p.subreddit,
              RedditMeta(p.ups, p.score, p.author, p.subreddit, p.created, "https://reddit.com" + p.permalink))
  }

  /** `posts.map(...)`. */
  function RedditCandidates(posts: seq<RedditPost>): seq<Candidate>
  {
    seq(|posts|, k requires 0 <= k < |posts| => RedditCandidate(posts[k]))
  }

  /** The listing of `fetchFromRedditEndpoint(endpoint, limit)`: the image
      posts, in listing order, at most `limit` of them. `posts` is `None`
      when every proxy failed or the listing had an unexpected shape. */
  function FromReddit(posts: Option<seq<RedditPost>>, limit: nat): (r: seq<Candidate>)
    ensures |r| <= limit
    ensures posts.None? ==> r == []
  {
    match posts
    case None => []
    case Some(ps) => RedditCandidates(Take(Filter(ps, IsImagePost), limit))
  }

  /** Each Reddit candidate is made from an image post of the listing. */
  lemma RedditFromImagePosts(ps: seq<RedditPost>, limit: nat, k: nat)
    requires k < |FromReddit(Some(ps), limit)|
    ensures exists i :: 0 <= i < |ps| && IsImagePost(ps[i]) && FromReddit(Some(ps), limit)[k] == RedditCandidate(ps[i])
  {
    var all := Filter(ps, IsImagePost);
    var kept := Take(all, limit);
    assert kept[k] == all[k];
    assert all[k] in ps && IsImagePost(all[k]);
    var i :| 0 <= i < |ps| && ps[i] == all[k];
    assert FromReddit(Some(ps), limit)[k] == RedditCandidate(ps[i]);
  }

  /** Within the limit, the listing keeps exactly the image posts, in
      order. */
  lemma RedditKeepsImagePosts(ps: seq<RedditPost>, limit: nat)
    requires |Filter(ps, IsImagePost)| <= limit
    ensures FromReddit(Some(ps), limit) == RedditCandidates(Filter(ps, IsImagePost))
  {
    var all := Filter(ps, IsImagePost);
    assert Take(all, limit) == all;
  }

  /** Every image post of a listing within the limit is kept. */
  lemma RedditKeepsEveryImagePost(ps: seq<RedditPost>, limit: nat, k: nat)
    requires |Filter(ps, IsImagePost)| <= limit
    requires k < |ps| && IsImagePost(ps[k])
    ensures RedditCandidate(ps[k]) in FromReddit(Some(ps), limit)
  {
    var kept := Filter(ps, IsImagePost);
    RedditKeepsImagePosts(ps, limit);
    var i :| 0 <= i < |kept| && kept[i] == ps[k];
    assert RedditCandidates(kept)[i] == RedditCandidate(ps[k]);
  }

  // ---------------------------------------------------------- URL de-duplication

  function UrlSet(s: seq<Candidate>): set<string>
  {
    if s == [] then {} else UrlSet(s[..|s| - 1]) + {s[|s| - 1].url}
  }

  lemma {:induction false} UrlSetMembers(s: seq<Candidate>)
    ensures forall u :: u in UrlSet(s) <==> exists k :: 0 <= k < |s| && s[k].url == u
  {
    if s != [] {
      UrlSetMembers(s[..|s| - 1]);
      assert forall k :: 0 <= k < |s| - 1 ==> s[..|s| - 1][k] == s[k];
    }
  }

  /** The first candidate of each URL, in order: what the `seenUrls` loop keeps. */
  function UniqueByUrl(s: seq<Candidate>): (r: seq<Candidate>)
    ensures UrlSet(r) == UrlSet(s)
    ensures forall i, j :: 0 <= i < j < |r| ==> r[i].url != r[j].url
    ensures forall k :: 0 <= k < |r| ==> r[k] in s
    ensures |r| <= |s|
    decreases |s|
  {
    if s == [] then []
    else
      var front := s[..|s| - 1];
      var last := s[|s| - 1];
      var p := UniqueByUrl(front);
      UrlSetMembers(p);
      assert forall k :: 0 <= k < |p| ==> p[k] in s;
      if last.url in UrlSet(front) then p else p + [last]
  }

  /** Every candidate that is the first with its URL is kept. */
  lemma {:induction false} UniqueKeepsFirst(s: seq<Candidate>, i: nat)
    requires i < |s|
    requires forall j :: 0 <= j < i ==> s[j].url != s[i].url
    ensures s[i] in UniqueByUrl(s)
    decreases |s|
  {
    var front := s[..|s| - 1];
    if i < |s| - 1 {
      UniqueKeepsFirst(front, i);
    } else {
      UrlSetMembers(front);
    }
  }

  /** Scanning further only appends: the candidates kept from a prefix are
      a prefix of those kept from the whole, so the order is the input's. */
  lemma {:induction false} UniquePrefix(s: seq<Candidate>, n: nat)
    requires n <= |s|
    ensures UniqueByUrl(s[..n]) <= UniqueByUrl(s)
    decreases |s| - n
  {
    if n < |s| {
      UniquePrefix(s, n + 1);
      var longer := s[..n + 1];
      assert longer[..|longer| - 1] == s[..n];
      UniqueStep(longer);
    } else {
      assert s[..n] == s;
    }
  }

  /** One more candidate at most appends itself to what is kept. */
  lemma UniqueStep(s: seq<Candidate>)
    requires s != []
    ensures UniqueByUrl(s[..|s| - 1]) <= UniqueByUrl(s)
  {
  }

  /** The de-duplication loop with its `seenUrls` set. */
  method DedupByUrl(all: seq<Candidate>) returns (unique: seq<Candidate>)
    ensures unique == UniqueByUrl(all)
  {
    unique := [];
    var seen: set<string> := {};
    for i := 0 to |all|
      invariant seen == UrlSet(all[..i])
      invariant unique == UniqueByUrl(all[..i])
    {
      var template := all[i];
      assert all[..i + 1][..i] == all[..i];
      if template.url !in seen {
        seen := seen + {template.url};
        unique := unique + [template];
      }
    }
    assert all[..|all|] == all;
  }

  // ------------------------------------------------------ popularity ranking

  /** Sorted by popularity, most popular first, then the first 20. */
  function MostPopular(unique: seq<Candidate>): (r: seq<Candidate>)
    ensures |r| == (if |unique| < 20 then |unique| else 20)
    ensures forall i, j :: 0 <= i < j < |r| ==> Popularity(r[i]) >= Popularity(r[j])
    ensures multiset(r) <= multiset(unique)
    ensures forall j :: 0 <= j < |unique| ==> unique[j] in r || forall k :: 0 <= k < |r| ==> Popularity(r[k]) >= Popularity(unique[j])
  {
    TakeSortedIsTop(unique, Popularity, 20);
    Take(SortDesc(unique, Popularity), 20)
  }

  // ------------------------------------------------------ file names

  /** The extension of a URL: after its last `.`, up to its first `?`,
      `jpg` if that is empty. */
  function Extension(url: string): (ext: string)
    ensures ext != "" && '.' !in ext && '?' !in ext
  {
    var parts := Split(url, '.');
    var last := parts[|parts| - 1];
    SplitKeepsOut(last, '?', '.');
    var e := Split(last, '?')[0];
    if e == "" then "jpg" else e
  }

  /** A URL ending in `.ext`, possibly followed by a `?` and a query, has
      extension `ext`. */
  lemma ExtensionOf(base: string, ext: string, query: Option<string>)
    requires ext != "" && '.' !in ext && '?' !in ext
    requires query.Some? ==> '.' !in query.value
    ensures Extension(base + "." + ext + (if query.Some? then "?" + query.value else "")) == ext
  {
    var tail := ext + (if query.Some? then "?" + query.value else "");
    var url := base + "." + ext + (if query.Some? then "?" + query.value else "");
    assert url == base + ['.'] + tail;
    SplitConcat(base, '.', tail);
    assert '.' !in tail;
    SplitWithoutSep(tail, '.');
    var parts := Split(url, '.');
    assert parts == Split(base, '.') + [tail];
    assert parts[|parts| - 1] == tail;
    SplitWithoutSep(ext, '?');
    if query.Some? {
      assert tail == ext + ['?'] + query.value;
      SplitConcat(ext, '?', query.value);
      assert Split(tail, '?')[0] == ext;
    } else {
      assert tail == ext;
    }
  }

  /** One character of `name.toLowerCase().replace(/[^a-z0-9]/g, '-')`.
      Lower-casing maps KELVIN SIGN to `k` and LATIN CAPITAL LETTER I WITH
      DOT ABOVE to `i` and a combining dot; a character outside the Basic
      Multilingual Plane is two UTF-16 code units, each replaced. */
  function StemChar(c: char): string
  {
    if IsAsciiUpper(c) then [AsciiLower(c)]
    else if IsLowerAlnum(c) then [c]
    else if c == '\U{212A}' then "k"
    else if c == '\U{0130}' then "i-"
    else if c as int >= 0x10000 then "--"
    else "-"
  }

  /** The file-name stem of a template name. */
  function Stem(name: string): (r: string)
    ensures forall k :: 0 <= k < |r| ==> IsLowerAlnum(r[k]) || r[k] == '-'
    ensures |r| >= |name|
  {
    if name == [] then [] else StemChar(name[0]) + Stem(name[1..])
  }

  lemma {:induction false} StemCharStem(c: char)
    ensures Stem(StemChar(c)) == StemChar(c)
  {
    var h := StemChar(c);
    if |h| == 1 {
      assert Stem(h) == StemChar(h[0]) + Stem(h[1..]);
    } else {
      assert h[1..][1..] == [];
      assert Stem(h) == StemChar(h[0]) + Stem(h[1..]);
      assert Stem(h[1..]) == StemChar(h[1]) + Stem([]);
    }
  }

  lemma {:induction false} StemAppend(a: string, b: string)
    ensures Stem(a + b) == Stem(a) + Stem(b)
  {
    if a == [] {
      assert a + b == b;
    } else {
      assert (a + b)[0] == a[0] && (a + b)[1..] == a[1..] + b;
      StemHead(a);
      StemHead(a + b);
      StemAppend(a[1..], b);
      Associative(StemChar(a[0]), Stem(a[1..]), Stem(b));
    }
  }

  /** The stem of a name is its first character's stem followed by the rest's. */
  lemma StemHead(s: string)
    requires s != []
    ensures Stem(s) == StemChar(s[0]) + Stem(s[1..])
  {
  }

  lemma Associative(x: string, y: string, z: string)
    ensures x + (y + z) == (x + y) + z
  {
  }

  /** A stem is its own stem: it already consists of lower-case letters,
      digits and dashes. */
  lemma {:induction false} StemIdempotent(name: string)
    ensures Stem(Stem(name)) == Stem(name)
  {
    if name != [] {
      StemIdempotent(name[1..]);
      StemAppend(StemChar(name[0]), Stem(name[1..]));
      StemCharStem(name[0]);
    }
  }

  /** `${stem}-${Date.now()}-${i}.${extension}`. */
  function FileName(name: string, now: int, i: nat, ext: string): string
  {
    Stem(name) + "-" + IntToString(now) + "-" + NatToString(i) + "." + ext
  }

  /** The stored file name keeps the image URL's extension. */
  lemma FileNameExtension(name: string, now: int, i: nat, url: string)
    ensures Extension(FileName(name, now, i, Extension(url))) == Extension(url)
  {
    var base := Stem(name) + "-" + IntToString(now) + "-" + NatToString(i);
    assert FileName(name, now, i, Extension(url)) == base + "." + Extension(url) + "";
    ExtensionOf(base, Extension(url), None);
  }

  // ------------------------------------------------------ conversion

  /** `imageData` is truthy: read, and not empty. */
  predicate HasData(d: Option<string>)
  {
    d.Some? && d.value != ""
  }

  /** The stored form of the `i`-th ranked candidate, whose image read as
      `data`; `clock(i, 0)` and `clock(i, 1)` are the two `Date.now()`
      readings taken for it. */
  function StoredOf(t: Candidate, i: nat, data: string, clock: (nat, nat) -> int): Stored
  {
    var fileName := FileName(t.name, clock(i, 0), i, Extension(t.url));
    Stored(t.name, t.description, t.source, t.url, data, fileName, "assets/" + fileName, t.metadata, clock(i, 1))
  }

  /** The ranked candidates below index `n` whose image could be read, in
      order; `imageData(i)` is what reading the `i`-th image gave. */
  function Converted(ranked: seq<Candidate>, n: nat, imageData: nat -> Option<string>, clock: (nat, nat) -> int): (r: seq<Stored>)
    requires n <= |ranked|
    ensures |r| <= n
  {
    if n == 0 then []
    else
      Converted(ranked, n - 1, imageData, clock)
      + (if HasData(imageData(n - 1)) then [StoredOf(ranked[n - 1], n - 1, imageData(n - 1).value, clock)] else [])
  }

  /** The indices below `n` whose image could be read, in increasing order. */
  function KeptIndices(n: nat, imageData: nat -> Option<string>): (ks: seq<nat>)
    ensures forall a :: 0 <= a < |ks| ==> ks[a] < n && HasData(imageData(ks[a]))
    ensures forall a, b :: 0 <= a < b < |ks| ==> ks[a] < ks[b]
    ensures forall k :: 0 <= k < n && HasData(imageData(k)) ==> k in ks
  {
    if n == 0 then [] else KeptIndices(n - 1, imageData) + (if HasData(imageData(n - 1)) then [n - 1] else [])
  }

  /** Which ranked candidates survive: exactly those whose image could be
      read, in ranked order, each stored with its own fields, URL and image
      data. */
  lemma {:induction false} ConvertedSpec(ranked: seq<Candidate>, n: nat, imageData: nat -> Option<string>, clock: (nat, nat) -> int)
    requires n <= |ranked|
    ensures var r, ks := Converted(ranked, n, imageData, clock), KeptIndices(n, imageData);
            |r| == |ks|
            && forall j :: 0 <= j < |r| ==> r[j] == StoredOf(ranked[ks[j]], ks[j], imageData(ks[j]).value, clock)
  {
    if n > 0 {
      ConvertedSpec(ranked, n - 1, imageData, clock);
    }
  }

  /** With every image read, every ranked candidate is stored. */
  lemma ConvertedAll(ranked: seq<Candidate>, n: nat, imageData: nat -> Option<string>, clock: (nat, nat) -> int)
    requires n <= |ranked|
    requires forall k :: 0 <= k < n ==> HasData(imageData(k))
    ensures |Converted(ranked, n, imageData, clock)| == n
  {
    ConvertedSpec(ranked, n, imageData, clock);
    KeptAll(n, imageData);
  }

  lemma {:induction false} KeptAll(n: nat, imageData: nat -> Option<string>)
    requires forall k :: 0 <= k < n ==> HasData(imageData(k))
    ensures |KeptIndices(n, imageData)| == n
  {
    if n > 0 {
      KeptAll(n - 1, imageData);
    }
  }

  /** The conversion loop: reads each ranked candidate's image and keeps the
      candidates whose image came back. */
  method ConvertAll(ranked: seq<Candidate>, imageData: nat -> Option<string>, clock: (nat, nat) -> int)
    returns (withData: seq<Stored>)
    ensures withData == Converted(ranked, |ranked|, imageData, clock)
  {
    withData := [];
    for i := 0 to |ranked|
      invariant withData == Converted(ranked, i, imageData, clock)
    {
      var template := ranked[i];
      var data := imageData(i);
      if data.Some? && data.value != "" {
        var urlParts := Split(template.url, '.');
        var e := Split(urlParts[|urlParts| - 1], '?')[0];
        var extension := if e == "" then "jpg" else e;
        var fileName := Stem(template.name) + "-" + IntToString(clock(i, 0)) + "-" + NatToString(i) + "." + extension;
        withData := withData + [Stored(template.name, template.description, template.source, template.url, data.value,
                                       fileName, "assets/" + fileName, template.metadata, clock(i, 1))];
      }
    }
  }

  /** The shared tail of both fetchers: de-duplicate, keep the 20 most
      popular, convert. */
  method Prepare(all: seq<Candidate>, imageData: nat -> Option<string>, clock: (nat, nat) -> int)
    returns (templates: seq<Stored>)
    ensures templates == Converted(MostPopular(UniqueByUrl(all)), |MostPopular(UniqueByUrl(all))|, imageData, clock)
    ensures |templates| <= 20
  {
    var unique := DedupByUrl(all);
    var ranked := MostPopular(unique);
    templates := ConvertAll(ranked, imageData, clock);
  }

  /** The stored templates of one fetch carry distinct original URLs. */
  lemma PreparedUrlsDistinct(all: seq<Candidate>, imageData: nat -> Option<string>, clock: (nat, nat) -> int)
    ensures var ranked := MostPopular(UniqueByUrl(all));
            var r := Converted(ranked, |ranked|, imageData, clock);
            forall i, j :: 0 <= i < j < |r| ==> r[i].originalUrl != r[j].originalUrl
  {
    var unique := UniqueByUrl(all);
    var ranked := MostPopular(unique);
    RankedUrlsDistinct(unique);
    ConvertedDistinct(ranked, |ranked|, imageData, clock);
  }

  lemma RankedUrlsDistinct(unique: seq<Candidate>)
    requires forall i, j :: 0 <= i < j < |unique| ==> unique[i].url != unique[j].url
    ensures var ranked := MostPopular(unique);
            forall i, j :: 0 <= i < j < |ranked| ==> ranked[i].url != ranked[j].url
  {
    SubMultisetUrlsDistinct(MostPopular(unique), unique);
  }

  /** Drawing elements, each at most as often as it occurs, from a list
      with distinct URLs gives a list with distinct URLs. */
  lemma SubMultisetUrlsDistinct(r: seq<Candidate>, u: seq<Candidate>)
    requires multiset(r) <= multiset(u)
    requires forall i, j :: 0 <= i < j < |u| ==> u[i].url != u[j].url
    ensures forall i, j :: 0 <= i < j < |r| ==> r[i].url != r[j].url
  {
    forall i, j | 0 <= i < j < |r| ensures r[i].url != r[j].url {
      if r[i].url == r[j].url {
        assert r[i] in multiset(u) && r[j] in multiset(u);
        var a :| 0 <= a < |u| && u[a] == r[i];
        var b :| 0 <= b < |u| && u[b] == r[j];
        assert a == b;
        TwiceInMultiset(r, i, j);
        UniqueOnce(u, a);
        assert false;
      }
    }
  }

  /** In a list with distinct URLs, each element occurs once. */
  lemma {:induction false} UniqueOnce(s: seq<Candidate>, a: nat)
    requires a < |s|
    requires forall i, j :: 0 <= i < j < |s| ==> s[i].url != s[j].url
    ensures multiset(s)[s[a]] == 1
  {
    var front := s[..|s| - 1];
    assert s == front + [s[|s| - 1]];
    if a == |s| - 1 {
      assert forall k :: 0 <= k < |front| ==> front[k] != s[a];
      assert s[a] !in front;
    } else {
      UniqueOnce(front, a);
      assert s[|s| - 1] != s[a];
    }
  }

  /** The stored templates keep the ranked candidates' distinct URLs. */
  lemma ConvertedDistinct(ranked: seq<Candidate>, n: nat, imageData: nat -> Option<string>, clock: (nat, nat) -> int)
    requires n <= |ranked|
    requires forall i, j :: 0 <= i < j < |ranked| ==> ranked[i].url != ranked[j].url
    ensures var r := Converted(ranked, n, imageData, clock);
            forall i, j :: 0 <= i < j < |r| ==> r[i].originalUrl != r[j].originalUrl
  {
    ConvertedSpec(ranked, n, imageData, clock);
    var r, ks := Converted(ranked, n, imageData, clock), KeptIndices(n, imageData);
    forall i, j | 0 <= i < j < |r| ensures r[i].originalUrl != r[j].originalUrl {
      assert r[i].originalUrl == ranked[ks[i]].url && r[j].originalUrl == ranked[ks[j]].url;
    }
  }

  // ------------------------------------------------------ the two fetchers

  /** `fetchRedditTemplates()`: the hot listing's and the day's top
      listing's image posts (100 of each at most), then the shared tail. */
  method FetchRedditTemplates(hot: Option<seq<RedditPost>>, top: Option<seq<RedditPost>>,
                              imageData: nat -> Option<string>, clock: (nat, nat) -> int)
    returns (templates: seq<Stored>)
    ensures var all := FromReddit(hot, 100) + FromReddit(top, 100);
            templates == Converted(MostPopular(UniqueByUrl(all)), |MostPopular(UniqueByUrl(all))|, imageData, clock)
    ensures |templates| <= 20
  {
    var all := FromReddit(hot, 100) + FromReddit(top, 100);
    templates := Prepare(all, imageData, clock);
  }

  /** `fetchImgflipTemplates()`: the Imgflip top ten, then the shared tail. */
  method FetchImgflipTemplates(reply: Option<ImgflipBody>, imageData: nat -> Option<string>, clock: (nat, nat) -> int)
    returns (templates: seq<Stored>)
    ensures var all := FromImgflip(reply);
            templates == Converted(MostPopular(UniqueByUrl(all)), |MostPopular(UniqueByUrl(all))|, imageData, clock)
    ensures |templates| <= 10
  {
    var all := FromImgflip(reply);
    templates := Prepare(all, imageData, clock);
  }
}
