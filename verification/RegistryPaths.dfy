/**
  The path parsers of the container registry: the OCI distribution routes below /v2/ and the
  repository browser's routes. Each is characterised exactly: which printed requests it
  recognises, and that it recognises nothing else.
 */
module RegistryPaths {
  import opened Seqs
  import opened Strings

  // ------------------------------------------------------------ the parsers

  const UPLOADS: string := "/blobs/uploads"
  const BLOBS: string := "/blobs/"
  const MANIFESTS: string := "/manifests/"
  const TAGS_LIST: string := "/tags/list"
  const TAGS: string := "/tags"
  const TAG: string := "/tags/"

  datatype OciAction =
    | Catalog
    | TagsList
    | Manifests(reference: string)
    | Blob(digest: string)
    | Uploads
    | UploadSession(uuid: string)

  /** What follows "/blobs/uploads" after the repository's name. */
  function UploadAction(tail: string): Option<OciAction> {
    if tail == "" || tail == "/" then Some(Uploads)
    else if tail[0] == '/' then Some(UploadSession(tail[1..]))
    else None
  }

  function SplitOciPath(rest: string): Option<(string, OciAction)> {
    if rest == "_catalog" then Some(("", Catalog))
    else
      match Find(rest, UPLOADS)
      case Some(i) => SplitUpload(rest[..i], rest[i + |UPLOADS|..])
      case None =>
        match RFind(rest, BLOBS)
        case Some(i) => SplitNamed(rest[..i], rest[i + |BLOBS|..], d => Blob(d))
        case None =>
          match RFind(rest, MANIFESTS)
          case Some(i) => SplitNamed(rest[..i], rest[i + |MANIFESTS|..], r => Manifests(r))
          case None =>
            match StripSuffix(rest, TAGS_LIST)
            case Some(name) => if name != "" then Some((name, TagsList)) else None
            case None => None
  }

  function SplitUpload(name: string, tail: string): Option<(string, OciAction)> {
    if name == "" then None
    else
      match UploadAction(tail)
      case Some(a) => Some((name, a))
      case None => None
  }

  function SplitNamed(name: string, arg: string, action: string -> OciAction): Option<(string, OciAction)> {
    if name == "" || arg == "" then None else Some((name, action(arg)))
  }

  datatype UiAction = Tags(name: string) | Manifest(name: string, tag: string)

  function SplitUiPath(rest: string): Option<UiAction> {
    var tags := StripSuffix(rest, TAGS);
    if tags.Some? && tags.value != "" then Some(Tags(tags.value))
    else
      match RFind(rest, TAG)
      case None => None
      case Some(i) =>
        var name, tag := rest[..i], rest[i + |TAG|..];
        if name != "" && tag != "" && '/' !in tag then Some(Manifest(name, tag)) else None
  }

  // ------------------------------------------------------------ the printer

  /** The path of a request, as the distribution protocol writes it. */
  function Print(name: string, a: OciAction): string {
    match a
    case Catalog => "_catalog"
    case TagsList => name + TAGS_LIST
    case Manifests(r) => name + (MANIFESTS + r)
    case Blob(d) => name + (BLOBS + d)
    case Uploads => name + (UPLOADS + "/")
    case UploadSession(u) => name + (UPLOADS + ("/" + u))
  }

  /** The requests whose path is read back as themselves. */
  ghost predicate Routable(name: string, a: OciAction) {
    match a
    case Catalog => name == ""
    case TagsList => name != "" && !Has(name + "/", BLOBS) && !Has(name + "/", MANIFESTS)
    case Manifests(r) =>
      && name != "" && r != ""
      && !Has(name + "/", BLOBS) && !Has("/" + r, BLOBS) && !Has("/" + r, MANIFESTS)
    case Blob(d) =>
      && name != "" && d != ""
      && !Has(name, UPLOADS) && !("uploads" <= d) && !Has("/" + d, BLOBS)
    case Uploads => name != "" && !Has(name, UPLOADS)
    case UploadSession(u) => name != "" && u != "" && !Has(name, UPLOADS)
  }

  function PrintUi(a: UiAction): string {
    match a
    case Tags(n) => n + TAGS
    case Manifest(n, t) => n + (TAG + t)
  }

  predicate UiRoutable(a: UiAction) {
    match a
    case Tags(n) => n != ""
    case Manifest(n, t) => n != "" && t != "" && '/' !in t && t != "tags"
  }

  // ------------------------------------------------------------ occurrences in a concatenation

  /** A path segment with its two slashes. */
  predicate IsSegment(pat: string) {
    && |pat| >= 2 && pat[0] == '/' && pat[|pat| - 1] == '/'
    && forall k :: 0 < k < |pat| - 1 ==> pat[k] != '/'
  }

  lemma AtLeft(a: string, b: string, pat: string, i: nat)
    requires i + |pat| <= |a|
    ensures At(a + b, pat, i) <==> At(a, pat, i)
  {
    assert (a + b)[i..i + |pat|] == a[i..i + |pat|];
  }

  lemma AtRight(a: string, b: string, pat: string, i: nat)
    ensures At(a + b, pat, |a| + i) <==> At(b, pat, i)
  {
    if i + |pat| <= |b| {
      assert (a + b)[|a| + i..|a| + i + |pat|] == b[i..i + |pat|];
    }
  }

  /** Where a slash follows `a`, a segment is found in `a` and that slash, or from that slash on. */
  lemma SegmentAcross(a: string, b: string, pat: string)
    requires IsSegment(pat) && |b| > 0 && b[0] == '/'
    ensures Has(a + b, pat) <==> Has(a + "/", pat) || Has(b, pat)
  {
    var first := a + "/";
    assert a + b == first + b[1..];
    if Has(first, pat) {
      var i: nat :| At(first, pat, i);
      AtLeft(first, b[1..], pat, i);
    }
    if Has(b, pat) {
      var i: nat :| At(b, pat, i);
      AtRight(a, b, pat, i);
    }
    if Has(a + b, pat) {
      var i: nat :| At(a + b, pat, i);
      if i < |a| {
        SegmentEndsBySlash(a, b, pat, i);
        AtLeft(first, b[1..], pat, i);
      } else {
        AtRight(a, b, pat, i - |a|);
      }
    }
  }

  lemma SegmentEndsBySlash(a: string, b: string, pat: string, i: nat)
    requires IsSegment(pat) && |b| > 0 && b[0] == '/' && i < |a| && At(a + b, pat, i)
    ensures i + |pat| <= |a| + 1
  {
    var k := |a| - i;
    if k < |pat| {
      AtChar(a + b, pat, i, k);
    }
  }

  /** A segment holds another only if they are the same. */
  lemma SegmentInSegment(seg: string, pat: string)
    requires IsSegment(seg) && IsSegment(pat)
    ensures Has(seg, pat) <==> seg == pat
  {
    if seg == pat {
      assert At(seg, pat, 0);
    }
    if Has(seg, pat) {
      var i: nat :| At(seg, pat, i);
      AtChar(seg, pat, i, 0);
      AtChar(seg, pat, i, |pat| - 1);
      assert i == 0 && |pat| == |seg|;
    }
  }

  /** The last "/seg/" of name + "/seg/" + arg is the printed one unless "/" + arg has another. */
  lemma LastSegment(name: string, seg: string, arg: string)
    requires IsSegment(seg)
    ensures RFind(name + (seg + arg), seg) == Some(|name|) <==> !Has("/" + arg, seg)
  {
    var s := name + (seg + arg);
    var front := name + seg[..|seg| - 1];
    assert s == front + ("/" + arg);
    Pieces(name, seg, arg);
    if Has("/" + arg, seg) {
      var i: nat :| At("/" + arg, seg, i);
      AtRight(front, "/" + arg, seg, i);
    }
    var last := RFind(s, seg).value;
    if last > |name| {
      LaterSegment(name, seg, arg, last);
      AtRight(front, "/" + arg, seg, last - |front|);
    }
  }

  lemma LaterSegment(name: string, seg: string, arg: string, i: nat)
    requires IsSegment(seg) && i > |name| && At(name + (seg + arg), seg, i)
    ensures i >= |name| + |seg| - 1
  {
    AtChar(name + (seg + arg), seg, i, 0);
    if i < |name| + |seg| {
      assert (name + (seg + arg))[i] == seg[i - |name|];
    }
  }

  lemma HasPrefixAt(s: string, pat: string, longer: string, i: nat)
    requires pat <= longer && At(s, longer, i)
    ensures At(s, pat, i)
  {
    assert s[i..i + |pat|] == s[i..i + |longer|][..|pat|];
  }

  lemma HasPrefixOf(s: string, pat: string, longer: string)
    requires pat <= longer && Has(s, longer)
    ensures Has(s, pat)
  {
    var i: nat :| At(s, longer, i);
    HasPrefixAt(s, pat, longer, i);
  }

  /** "/blobs/uploads" cannot run from a name into a following "/b". */
  lemma UploadsWithinName(name: string, b: string, i: nat)
    requires |b| >= 2 && b[0] == '/' && b[1] == 'b' && i < |name|
    ensures At(name + b, UPLOADS, i) ==> At(name, UPLOADS, i)
  {
    var k := |name| - i;
    if k >= |UPLOADS| {
      AtLeft(name, b, UPLOADS, i);
    } else {
      AtChar(name + b, UPLOADS, i, k);
      AtChar(name + b, UPLOADS, i, 7);
      assert UPLOADS[k] == '/' ==> k == 6;
    }
  }

  /** The first occurrence in name + pat + tail is the printed one unless the name itself has one. */
  lemma FirstOccurrence(name: string, pat: string, tail: string)
    requires pat != "" && forall i: nat :: i < |name| && At(name + (pat + tail), pat, i) ==> At(name, pat, i)
    ensures Find(name + (pat + tail), pat) == Some(|name|) <==> !Has(name, pat)
  {
    var s := name + (pat + tail);
    AtRight(name, pat + tail, pat, 0);
    AtLeft(pat, tail, pat, 0);
    assert At(s, pat, |name|);
    if Has(name, pat) {
      var i: nat :| At(name, pat, i);
      AtLeft(name, pat + tail, pat, i);
      assert At(s, pat, i) && i < |name|;
    }
    assert Find(s, pat).Some? && Find(s, pat).value <= |name|;
  }

  lemma FirstUploads(name: string, tail: string)
    ensures Find(name + (UPLOADS + tail), UPLOADS) == Some(|name|) <==> !Has(name, UPLOADS)
  {
    var b := UPLOADS + tail;
    forall i: nat | i < |name| && At(name + b, UPLOADS, i) ensures At(name, UPLOADS, i) {
      UploadsWithinName(name, b, i);
    }
    FirstOccurrence(name, UPLOADS, tail);
  }

  lemma Pieces(name: string, pat: string, tail: string)
    ensures var s := name + (pat + tail);
            s[..|name|] == name && s[|name| + |pat|..] == tail && At(s, pat, |name|)
  {
    AtRight(name, pat + tail, pat, 0);
    AtLeft(pat, tail, pat, 0);
  }

  // ------------------------------------------------------------ soundness

  lemma UploadPrintsBack(name: string, tail: string, a: OciAction)
    requires UploadAction(tail) == Some(a)
    ensures Print(name, a) == name + (UPLOADS + tail)
         || (a == Uploads && Print(name, a) == name + (UPLOADS + tail) + "/")
    ensures a == Uploads || (a.UploadSession? && a.uuid != "")
  {
    if tail == "" {
      assert UPLOADS + tail == UPLOADS;
      AppendAssoc(name, UPLOADS, "/");
    } else {
      assert tail == "/" + tail[1..];
    }
  }

  lemma CutAt(s: string, pat: string, i: nat)
    requires At(s, pat, i)
    ensures s == s[..i] + (pat + s[i + |pat|..])
  {
    assert s[i..i + |pat|] == pat;
  }

  /** Whatever is recognised prints back as the input, up to the trailing slash of an upload start. */
  lemma RecognisedPrintsBack(s: string, name: string, a: OciAction)
    requires SplitOciPath(s) == Some((name, a))
    ensures Print(name, a) == s || (a == Uploads && Print(name, a) == s + "/")
  {
    if s != "_catalog" {
      match Find(s, UPLOADS)
      case Some(i) =>
        CutAt(s, UPLOADS, i);
        UploadPrintsBack(name, s[i + |UPLOADS|..], a);
      case None =>
        if RFind(s, BLOBS).Some? {
          CutAt(s, BLOBS, RFind(s, BLOBS).value);
        } else if RFind(s, MANIFESTS).Some? {
          CutAt(s, MANIFESTS, RFind(s, MANIFESTS).value);
        }
    }
  }

  // ------------------------------------------------------------ round trips, action by action

  lemma SlashMeansNotCatalog(s: string)
    requires '/' in s
    ensures s != "_catalog"
  {
  }

  lemma UploadRoundTrip(name: string, tail: string)
    requires name != "" && UploadAction(tail).Some?
    ensures SplitOciPath(name + (UPLOADS + tail)) == Some((name, UploadAction(tail).value)) <==> !Has(name, UPLOADS)
  {
    var s := name + (UPLOADS + tail);
    Pieces(name, UPLOADS, tail);
    assert UPLOADS[0] == '/';
    assert s[|name|] == '/';
    SlashMeansNotCatalog(s);
    FirstUploads(name, tail);
    assert |s[..Find(s, UPLOADS).value]| == Find(s, UPLOADS).value;
  }

  lemma BlobRoundTrip(name: string, d: string)
    ensures SplitOciPath(Print(name, Blob(d))) == Some((name, Blob(d))) <==> Routable(name, Blob(d))
  {
    var s := name + (BLOBS + d);
    Pieces(name, BLOBS, d);
    assert BLOBS[0] == '/';
    assert s[|name|] == '/';
    SlashMeansNotCatalog(s);
    LastSegment(name, BLOBS, d);
    UploadsInBlobPath(name, d);
    BlobRule(s, name, d);
  }

  /** With no upload in the path, the blob rule decides for the last "/blobs/". */
  lemma BlobRule(s: string, name: string, d: string)
    requires s != "_catalog" && s == name + (BLOBS + d) && At(s, BLOBS, |name|)
    ensures SplitOciPath(s) == Some((name, Blob(d)))
       <==> name != "" && d != "" && !Has(s, UPLOADS) && RFind(s, BLOBS) == Some(|name|)
  {
    Pieces(name, BLOBS, d);
    match Find(s, UPLOADS)
    case Some(i) =>
    case None =>
      assert |s[..RFind(s, BLOBS).value]| == RFind(s, BLOBS).value;
  }

  lemma UploadsInBlobPath(name: string, d: string)
    ensures !Has("/" + d, BLOBS) ==>
      (Has(name + (BLOBS + d), UPLOADS) <==> Has(name, UPLOADS) || "uploads" <= d)
    ensures Has(name, UPLOADS) || "uploads" <= d ==> Has(name + (BLOBS + d), UPLOADS)
  {
    var s := name + (BLOBS + d);
    if Has(name, UPLOADS) {
      var i: nat :| At(name, UPLOADS, i);
      AtLeft(name, BLOBS + d, UPLOADS, i);
    }
    if "uploads" <= d {
      assert d == "uploads" + d[7..];
      assert BLOBS + "uploads" == UPLOADS;
      AppendAssoc(BLOBS, "uploads", d[7..]);
      Pieces(name, UPLOADS, d[7..]);
    }
    if Has(s, UPLOADS) {
      var i: nat :| At(s, UPLOADS, i);
      UploadsWhere(name, d, i);
    }
  }

  lemma UploadsWhere(name: string, d: string, i: nat)
    requires At(name + (BLOBS + d), UPLOADS, i)
    ensures Has(name, UPLOADS) || "uploads" <= d || Has("/" + d, BLOBS)
  {
    var s := name + (BLOBS + d);
    if i < |name| {
      UploadsWithinName(name, BLOBS + d, i);
    } else if i == |name| {
      assert s[i + 7..i + 14] == s[i..i + 14][7..] == "uploads";
      assert d[..7] == s[i + 7..i + 14];
    } else {
      HasPrefixAt(s, BLOBS, UPLOADS, i);
      LaterSegment(name, BLOBS, d, i);
      var front := name + "/blobs";
      assert s == front + ("/" + d);
      AtRight(front, "/" + d, BLOBS, i - |front|);
    }
  }

  // ------------------------------------------------------------ round trips of the other actions

  lemma SegmentsOfManifestPath(name: string, r: string)
    ensures Has(name + (MANIFESTS + r), BLOBS) <==> Has(name + "/", BLOBS) || Has("/" + r, BLOBS)
  {
    assert IsSegment(BLOBS) && IsSegment(MANIFESTS);
    SegmentAcross(name, MANIFESTS + r, BLOBS);
    assert MANIFESTS + r == "/manifests" + ("/" + r);
    SegmentAcross("/manifests", "/" + r, BLOBS);
    assert "/manifests" + "/" == MANIFESTS;
    SegmentInSegment(MANIFESTS, BLOBS);
    assert |MANIFESTS| != |BLOBS|;
  }

  lemma NoBlobsNoUploads(s: string)
    requires !Has(s, BLOBS)
    ensures Find(s, UPLOADS) == None && RFind(s, BLOBS) == None
  {
    if Has(s, UPLOADS) {
      HasPrefixOf(s, BLOBS, UPLOADS);
    }
  }

  /** Where the path holds "/blobs/", the manifest and tag rules are not reached. */
  lemma BlobsTakePriority(s: string, name: string, a: OciAction)
    requires Has(s, BLOBS) && SplitOciPath(s) == Some((name, a)) && s != "_catalog"
    ensures a.Blob? || a.Uploads? || a.UploadSession?
  {
  }

  lemma ManifestRoundTrip(name: string, r: string)
    ensures SplitOciPath(Print(name, Manifests(r))) == Some((name, Manifests(r))) <==> Routable(name, Manifests(r))
  {
    var s := name + (MANIFESTS + r);
    Pieces(name, MANIFESTS, r);
    assert MANIFESTS[0] == '/';
    assert s[|name|] == '/';
    SlashMeansNotCatalog(s);
    LastSegment(name, MANIFESTS, r);
    SegmentsOfManifestPath(name, r);
    if !Has(s, BLOBS) {
      NoBlobsNoUploads(s);
      assert |s[..RFind(s, MANIFESTS).value]| == RFind(s, MANIFESTS).value;
    } else if SplitOciPath(s) == Some((name, Manifests(r))) {
      BlobsTakePriority(s, name, Manifests(r));
    }
  }

  lemma TagsListRoundTrip(name: string)
    ensures SplitOciPath(Print(name, TagsList)) == Some((name, TagsList)) <==> Routable(name, TagsList)
  {
    var s := name + TAGS_LIST;
    assert TAGS_LIST[0] == '/';
    assert s[|name|] == '/';
    SlashMeansNotCatalog(s);
    SegmentInTagsPath(name, BLOBS);
    SegmentInTagsPath(name, MANIFESTS);
    if !Has(s, BLOBS) {
      NoBlobsNoUploads(s);
    } else if SplitOciPath(s) == Some((name, TagsList)) {
      BlobsTakePriority(s, name, TagsList);
    }
  }

  lemma SegmentInTagsPath(name: string, seg: string)
    requires IsSegment(seg) && |seg| > |TAG|
    ensures Has(name + TAGS_LIST, seg) <==> Has(name + "/", seg)
  {
    SegmentAcross(name, TAGS_LIST, seg);
    forall i: nat ensures !At(TAGS_LIST, seg, i) {
      AtChar(TAGS_LIST, seg, i, |seg| - 1);
    }
  }

  /**
    The parser recognises exactly the printed paths of the routable requests, and an upload start
    also without its trailing slash.
   */
  lemma RecognisesExactly(s: string, name: string, a: OciAction)
    ensures SplitOciPath(s) == Some((name, a))
       <==> Routable(name, a) && (Print(name, a) == s || (a == Uploads && Print(name, a) == s + "/"))
  {
    if SplitOciPath(s) == Some((name, a)) {
      RecognisedPrintsBack(s, name, a);
      RecognisedNameNotEmpty(s, name, a);
    }
    RoundTrip(name, a);
    if a == Uploads {
      if name != "" {
        UploadRoundTrip(name, "");
      }
      assert UPLOADS + "" == UPLOADS;
      assert s + "/" == name + (UPLOADS + "/") ==> s == (s + "/")[..|s|] == name + UPLOADS;
    }
  }

  lemma RecognisedNameNotEmpty(s: string, name: string, a: OciAction)
    requires SplitOciPath(s) == Some((name, a))
    ensures name == "" <==> a == Catalog
  {
  }

  lemma RoundTrip(name: string, a: OciAction)
    ensures SplitOciPath(Print(name, a)) == Some((name, a)) <==> Routable(name, a)
  {
    match a
    case Catalog =>
    case TagsList => TagsListRoundTrip(name);
    case Manifests(r) => ManifestRoundTrip(name, r);
    case Blob(d) => BlobRoundTrip(name, d);
    case Uploads =>
      if name != "" {
        UploadRoundTrip(name, "/");
      }
      if SplitOciPath(Print(name, a)) == Some((name, a)) {
        RecognisedNameNotEmpty(Print(name, a), name, a);
      }
    case UploadSession(u) =>
      if name != "" && u != "" {
        UploadRoundTrip(name, "/" + u);
      }
      if SplitOciPath(Print(name, a)) == Some((name, a)) {
        RecognisedNameNotEmpty(Print(name, a), name, a);
        RecognisedUuid(Print(name, a), name, a);
      }
  }

  lemma RecognisedUuid(s: string, name: string, a: OciAction)
    requires SplitOciPath(s) == Some((name, a)) && a.UploadSession?
    ensures a.uuid != ""
  {
  }

  // ------------------------------------------------------------ names as registries use them

  /** A repository name none of whose inner components is "blobs" or "manifests". */
  ghost predicate PlainName(name: string) {
    name != "" && !Has(name + "/", BLOBS) && !Has(name + "/", MANIFESTS)
  }

  predicate PlainArgument(a: OciAction) {
    match a
    case Catalog => false
    case TagsList => true
    case Manifests(r) => r != "" && '/' !in r
    case Blob(d) => d != "" && '/' !in d && !("uploads" <= d)
    case Uploads => true
    case UploadSession(u) => u != ""
  }

  lemma NoSegmentAfterLastSlash(arg: string, seg: string)
    requires '/' !in arg && IsSegment(seg) && |seg| > 2
    ensures !Has("/" + arg, seg)
  {
    var s := "/" + arg;
    assert forall k :: 0 < k < |s| ==> s[k] == arg[k - 1];
    forall i: nat ensures !At(s, seg, i) {
      AtChar(s, seg, i, |seg| - 1);
    }
  }

  /** Under a name without such a component, every request of the distribution protocol is read back as itself. */
  lemma PlainRequestsRoundTrip(name: string, a: OciAction)
    requires PlainName(name) && PlainArgument(a)
    ensures SplitOciPath(Print(name, a)) == Some((name, a))
  {
    if Has(name, UPLOADS) {
      HasPrefixOf(name, BLOBS, UPLOADS);
      var i: nat :| At(name, BLOBS, i);
      AtLeft(name, "/", BLOBS, i);
    }
    if a.Manifests? {
      NoSegmentAfterLastSlash(a.reference, BLOBS);
      NoSegmentAfterLastSlash(a.reference, MANIFESTS);
    } else if a.Blob? {
      NoSegmentAfterLastSlash(a.digest, BLOBS);
    }
    RoundTrip(name, a);
  }

  /** So two such requests never share a path. */
  lemma PlainPathsAreDistinct(n1: string, a1: OciAction, n2: string, a2: OciAction)
    requires PlainName(n1) && PlainArgument(a1) && PlainName(n2) && PlainArgument(a2)
    requires Print(n1, a1) == Print(n2, a2)
    ensures n1 == n2 && a1 == a2
  {
    PlainRequestsRoundTrip(n1, a1);
    PlainRequestsRoundTrip(n2, a2);
  }

  /** A repository with "manifests" inside its name loses its tag list to another one's manifest. */
  lemma TagListIsShadowed(outer: string, inner: string)
    requires PlainName(outer) && !Has("/" + inner + "/", BLOBS) && !Has("/" + inner + "/", MANIFESTS)
    ensures SplitOciPath(Print(outer + (MANIFESTS + inner), TagsList)) == Some((outer, Manifests(inner + TAGS_LIST)))
  {
    SegmentInTagsPath("/" + inner, BLOBS);
    SegmentInTagsPath("/" + inner, MANIFESTS);
    AppendAssoc("/", inner, TAGS_LIST);
    RoundTrip(outer, Manifests(inner + TAGS_LIST));
    AppendAssoc(MANIFESTS, inner, TAGS_LIST);
    AppendAssoc(outer, MANIFESTS + inner, TAGS_LIST);
  }

  // ------------------------------------------------------------ the browser's routes

  lemma UiManifestPath(name: string, tag: string)
    requires name != "" && tag != "" && '/' !in tag
    ensures SplitUiPath(name + (TAG + tag))
         == Some(if tag == "tags" then Tags(name + TAGS) else Manifest(name, tag))
  {
    var s := name + (TAG + tag);
    assert IsSegment(TAG);
    LastSegment(name, TAG, tag);
    NoSegmentAfterLastSlash(tag, TAG);
    Pieces(name, TAG, tag);
    if tag == "tags" {
      assert s == (name + TAGS) + TAGS;
    } else if StripSuffix(s, TAGS).Some? {
      var t := StripSuffix(s, TAGS).value;
      SuffixIsTag(name, t, tag);
    }
  }

  /** A path that ends in "/tags" and in a slash-free tag has the tag "tags". */
  lemma SuffixIsTag(name: string, t: string, tag: string)
    requires name + (TAG + tag) == t + TAGS && '/' !in tag
    ensures tag == "tags"
  {
    var s := name + (TAG + tag);
    var slash := |s| - |tag| - 1;
    assert s[slash] == '/' && s[slash + 1..] == tag;
    assert s[|t|] == '/' && s[|t| + 1..] == "tags";
    assert forall k :: slash < k < |s| ==> s[k] == tag[k - slash - 1];
    assert forall k :: |t| < k < |s| ==> s[k] == "tags"[k - |t| - 1];
    assert |t| == slash;
  }

  /** The browser's parser is a bijection between its routes and the paths it recognises. */
  lemma UiRecognisesExactly(s: string, a: UiAction)
    ensures SplitUiPath(s) == Some(a) <==> UiRoutable(a) && PrintUi(a) == s
  {
    match a
    case Tags(n) =>
    case Manifest(n, t) =>
      if n != "" && t != "" && '/' !in t {
        UiManifestPath(n, t);
      }
      if SplitUiPath(s) == Some(a) {
        CutAt(s, TAG, RFind(s, TAG).value);
        UiManifestPath(n, t);
      }
  }

  // ------------------------------------------------------------ the paths in full

  /** The path of a request, spelled out. */
  ghost predicate IsWritten(path: string, name: string, a: OciAction) {
    match a
    case Catalog => path == "_catalog"
    case TagsList => path == name + "/tags/list"
    case Manifests(r) => path == name + "/manifests/" + r
    case Blob(d) => path == name + "/blobs/" + d
    case Uploads => path == name + "/blobs/uploads" || path == name + "/blobs/uploads/"
    case UploadSession(u) => path == name + "/blobs/uploads/" + u
  }

  lemma WrittenIsPrinted(path: string, name: string, a: OciAction)
    requires IsWritten(path, name, a)
    ensures path == Print(name, a) || (a == Uploads && path + "/" == Print(name, a))
  {
    match a
    case Catalog =>
    case TagsList =>
    case Manifests(r) => AppendAssoc(name, "/manifests/", r);
    case Blob(d) => AppendAssoc(name, "/blobs/", d);
    case Uploads =>
      AppendAssoc(name, "/blobs/uploads", "/");
      assert "/blobs/uploads" + "/" == "/blobs/uploads/";
    case UploadSession(u) =>
      AppendAssoc("/blobs/uploads", "/", u);
      assert "/blobs/uploads" + "/" == "/blobs/uploads/";
      AppendAssoc(name, "/blobs/uploads/", u);
  }

  /** The routes of the distribution protocol are read as written, an upload start with or without its slash. */
  lemma WrittenPathIsRead(path: string, name: string, a: OciAction)
    requires IsWritten(path, name, a) && (a == Catalog || (PlainName(name) && PlainArgument(a)))
    ensures SplitOciPath(path) == Some((if a == Catalog then "" else name, a))
  {
    if a != Catalog {
      WrittenIsPrinted(path, name, a);
      PlainRequestsRoundTrip(name, a);
      RecognisesExactly(Print(name, a), name, a);
      RecognisesExactly(path, name, a);
    }
  }

  /** The browser's two routes. */
  lemma UiPathsAreRead(name: string, tag: string)
    requires name != "" && tag != "" && '/' !in tag && tag != "tags"
    ensures SplitUiPath(name + "/tags") == Some(Tags(name))
    ensures SplitUiPath(name + "/tags/" + tag) == Some(Manifest(name, tag))
  {
    UiRecognisesExactly(name + "/tags", Tags(name));
    UiRecognisesExactly(name + ("/tags/" + tag), Manifest(name, tag));
    AppendAssoc(name, "/tags/", tag);
  }
}
