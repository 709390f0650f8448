/** The upload-naming and error-reporting logic of `analyzeAudio` in
    mobile/services/AnalysisService.js. The form data and the `fetch` itself
    are left out; the server's reply is an input. */
module AnalysisService {
  import opened Base
  import opened Strings

  /** `uri.split('/').pop()`. */
  function Filename(uri: string): (f: string)
    ensures '/' !in f
    ensures |f| <= |uri| && f == uri[|uri| - |f|..]
    ensures |f| < |uri| ==> uri[|uri| - |f| - 1] == '/'
    ensures '/' !in uri ==> f == uri
  {
    var f := LastSegment(uri, '/');
    assert '/' !in uri ==> |f| == |uri| by {
      if |f| < |uri| {
        assert uri[|uri| - |f| - 1] == '/';
      }
    }
    f
  }

  /** `filename.split('.').pop().toLowerCase()`. */
  function Extension(filename: string): (ext: string)
    ensures '.' !in ext
    ensures forall i :: 0 <= i < |ext| ==> !('A' <= ext[i] <= 'Z')
    ensures '.' !in filename ==> ext == Lower(filename)
    ensures ext == Lower(LastSegment(filename, '.'))
  {
    var seg := LastSegment(filename, '.');
    assert '.' !in filename ==> seg == filename by {
      if |seg| < |filename| {
        assert filename[|filename| - |seg| - 1] == '.';
      }
    }
    Lower(seg)
  }

  const MIME_MAP: map<string, string> :=
    map["m4a" := "audio/m4a", "aac" := "audio/aac", "3gp" := "audio/3gp", "wav" := "audio/wav", "mp4" := "audio/mp4"]

  /** `mimeMap[ext] || 'audio/m4a'`: every mapped value is a non-empty
      string, so `||` falls back only for an extension the table lacks. */
  function MimeType(ext: string): (m: string)
    ensures ext in MIME_MAP ==> m == MIME_MAP[ext]
    ensures ext !in MIME_MAP ==> m == "audio/m4a"
    ensures m in MIME_MAP.Values
  {
    assert MIME_MAP["m4a"] == "audio/m4a";
    if ext in MIME_MAP && MIME_MAP[ext] != "" then MIME_MAP[ext] else "audio/m4a"
  }

  /** The file part `{ uri, name: filename, type: mimeType }` of the form. */
  datatype FilePart = FilePart(uri: string, name: string, mimeType: string)

  function UploadPart(uri: string): (p: FilePart)
    ensures p.uri == uri && p.name == Filename(uri)
    ensures p.mimeType == MimeType(Extension(Filename(uri)))
  {
    var name := Filename(uri);
    FilePart(uri, name, MimeType(Extension(name)))
  }

  /** A recording `dir/stem.ext` is uploaded under the name `stem.ext` with
      the type its lower-cased extension selects, whatever the directory and
      however many dots the stem has. */
  lemma PartOfRecording(dir: string, stem: string, ext: string)
    requires '/' !in stem && '/' !in ext && '.' !in ext
    ensures var part := UploadPart(dir + ['/'] + (stem + ['.'] + ext));
            part.name == stem + ['.'] + ext && part.mimeType == MimeType(Lower(ext))
  {
    var name := stem + ['.'] + ext;
    assert '/' !in name by {
      forall i | 0 <= i < |name|
        ensures name[i] != '/'
      {
        if i < |stem| {
          assert name[i] == stem[i];
        } else if i > |stem| {
          assert name[i] == ext[i - |stem| - 1];
        }
      }
    }
    LastSegmentAfter(dir, '/', name);
    LastSegmentAfter(stem, '.', ext);
  }

  /** Detection ignores case: file names that differ only in the case of
      their letters get the same type. */
  lemma MimeCaseInsensitive(uri1: string, uri2: string)
    requires Lower(Filename(uri1)) == Lower(Filename(uri2))
    ensures UploadPart(uri1).mimeType == UploadPart(uri2).mimeType
  {
    LowerLastSegment(Filename(uri1), '.');
    LowerLastSegment(Filename(uri2), '.');
  }

  const ERROR_PREFIX := "Server error "

  /** `Server error ${res.status}: ${text.slice(0, 120)}`. */
  function ServerErrorMessage(status: nat, body: string): (m: string)
    ensures var head := ERROR_PREFIX + NatToString(status) + ": ";
            && |m| == |head| + Min(120, |body|)
            && m[..|head|] == head
            && m[|head|..] == body[..|m| - |head|]
  {
    ERROR_PREFIX + NatToString(status) + ": " + body[..Min(120, |body|)]
  }

  /** The status code can be read back from the message. */
  lemma ServerErrorStatusReadBack(status: nat, body: string)
    ensures var d := |NatToString(status)|;
            var m := ServerErrorMessage(status, body);
            && AllDigits(m[13..13 + d])
            && DigitsValue(m[13..13 + d]) == status
            && m[13 + d..15 + d] == ": "
  {
    var d := |NatToString(status)|;
    var m := ServerErrorMessage(status, body);
    assert m[13..13 + d] == NatToString(status);
    NatToStringRoundTrip(status);
  }

  /** What the server answered: `res.ok`, `res.status` and the body text. */
  datatype Reply = Reply(ok: bool, status: nat, body: string)

  /** The outcome of `analyzeAudio` once the request has been answered: a
      non-ok reply throws the server error, an ok one is parsed (the JSON
      text is passed on as it is). */
  function AudioReply(reply: Reply): (r: Outcome<string>)
    ensures r.Raised? <==> !reply.ok
    ensures r.Raised? ==> r.message == ServerErrorMessage(reply.status, reply.body)
    ensures r.Ok? ==> r.value == reply.body
  {
    if !reply.ok then Raised(ServerErrorMessage(reply.status, reply.body)) else Ok(reply.body)
  }
}
