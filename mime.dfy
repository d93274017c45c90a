/**
 * Choice of the container requested from the recorder (app.js:100-105) and the
 * type and file name the upload derives from the recorder's `mimeType` (app.js:131, 150-151).
 */
module Mime {
  import opened Wrappers
  import opened Strings

  const WebM: string := "audio/webm"
  const Ogg: string := "audio/ogg"

  /** What `mediaRecorder.mimeType || 'audio/webm'` falls back on when the recorder reports no type. */
  const FallbackType: string := "audio/webm"

  /** Values a recorder reports as its `mimeType`: empty, or a MIME type, which has a '/'. */
  type RecorderMime = m: string | m == "" || '/' in m

  /**
   * The `mimeType` option passed to the recorder: WebM when the platform supports it,
   * otherwise Ogg when that is supported, otherwise none (the platform's default).
   */
  function ChooseMimeType(isTypeSupported: string -> bool): (requested: Option<string>)
    ensures requested == Some(WebM) <==> isTypeSupported(WebM)
    ensures requested == Some(Ogg) <==> !isTypeSupported(WebM) && isTypeSupported(Ogg)
    ensures requested == None <==> !isTypeSupported(WebM) && !isTypeSupported(Ogg)
    ensures requested.Some? ==> isTypeSupported(requested.value)
  {
    if isTypeSupported(WebM) then Some(WebM)
    else if isTypeSupported(Ogg) then Some(Ogg)
    else None
  }

  /** `mediaRecorder.mimeType || 'audio/webm'`: the string both the blob type and the file extension come from. */
  function SourceType(recorderMime: RecorderMime): (src: string)
    ensures src != [] && '/' in src
    ensures recorderMime != "" ==> src == recorderMime
    ensures recorderMime == "" ==> src == FallbackType
  {
    if recorderMime != "" then recorderMime else FallbackType
  }

  /** `src.split('/')[1]`, which is undefined (None) when there is no '/'. */
  function Subtype(src: string): Option<string> {
    var parts := Split(src, '/');
    if |parts| >= 2 then Some(parts[1]) else None
  }

  /**
   * `src.split('/')[1].split(';')[0]`; None stands for the TypeError raised
   * by calling `split` on undefined when `src` has no '/'.
   */
  function Extension(src: string): Option<string> {
    match Subtype(src)
    case None => None
    case Some(sub) => Some(Split(sub, ';')[0])
  }

  /** The file name of the upload's file field, `recording.<ext>`. */
  function UploadName(src: string): Option<string> {
    match Extension(src)
    case None => None
    case Some(ext) => Some("recording." + ext)
  }

  /**
   * The extension exists exactly when the type has a '/', and it contains
   * neither '/' nor ';'; the file name exists exactly when the extension does.
   */
  lemma ExtensionDefined(src: string)
    ensures Extension(src).Some? <==> '/' in src
    ensures Extension(src).Some? ==> '/' !in Extension(src).value && ';' !in Extension(src).value
    ensures UploadName(src).Some? <==> '/' in src
    ensures UploadName(src).Some? ==> UploadName(src).value == "recording." + Extension(src).value
  {
    SplitCount(src, '/');
    if '/' in src {
      var sub := Split(src, '/')[1];
      SplitPiecesFree(src, '/');
      SplitPiecesFree(sub, ';');
      assert '/' !in Split(sub, ';')[0] by {
        assert Split(sub, ';')[0] == sub[..NextIndex(sub, ';', 0)];
      }
    }
  }

  /** For a type with a '/', the upload is named `recording.` followed by the extension. */
  lemma UploadNameOfType(src: string)
    requires '/' in src
    ensures Extension(src).Some? && UploadName(src) == Some("recording." + Extension(src).value)
  {
    SplitCount(src, '/');
  }

  /**
   * The extension is exactly the run of characters after the first '/' up to the
   * next '/' or ';' or the end, and holds neither: for a type `major/subtype;codecs=x`, the subtype.
   */
  lemma ExtensionIsSubtype(src: string)
    requires '/' in src
    ensures Extension(src).Some?
    ensures var i := NextIndex(src, '/', 0); var ext := Extension(src).value;
      i < |src| && src[i] == '/' && (forall j :: 0 <= j < i ==> src[j] != '/')
      && i + 1 + |ext| <= |src| && src[i + 1..i + 1 + |ext|] == ext
      && (i + 1 + |ext| == |src| || src[i + 1 + |ext|] == '/' || src[i + 1 + |ext|] == ';')
      && '/' !in ext && ';' !in ext
  {
    ExtensionRun(src);
    ExtensionDefined(src);
  }

  /** Where the extension sits in the type: right after the first '/', followed by the end, '/' or ';'. */
  lemma ExtensionRun(src: string)
    requires '/' in src
    ensures Extension(src).Some?
    ensures var i := NextIndex(src, '/', 0); var ext := Extension(src).value;
      i < |src| && src[i] == '/' && (forall j :: 0 <= j < i ==> src[j] != '/')
      && i + 1 + |ext| <= |src| && src[i + 1..i + 1 + |ext|] == ext
      && (i + 1 + |ext| == |src| || src[i + 1 + |ext|] == '/' || src[i + 1 + |ext|] == ';')
  {
    var i := NextIndex(src, '/', 0);
    NextIndexFirst(src, '/', 0);
    var j := NextIndex(src, '/', i + 1);
    var sub := src[i + 1..j];
    assert Subtype(src) == Some(sub) by {
      SplitSecond(src, '/');
    }
    var k := NextIndex(sub, ';', 0);
    assert Extension(src) == Some(sub[..k]);
    assert sub[..k] == src[i + 1..i + 1 + k] by {
      assert forall t :: 0 <= t < k ==> sub[..k][t] == src[i + 1 + t];
    }
    assert i + 1 + k < j ==> src[i + 1 + k] == sub[k];
  }

  /** With a single '/', the subtype is everything after it. */
  lemma SubtypeOf(major: string, rest: string)
    requires '/' !in major && '/' !in rest
    ensures Subtype(major + "/" + rest) == Some(rest)
  {
    var src := major + "/" + rest;
    var i := |major|;
    assert src == major + ['/'] + rest;
    NextIndexAfter(major, '/', rest);
    assert forall j :: i + 1 <= j < |src| ==> src[j] == rest[j - i - 1];
    NextIndexAbsent(src, '/', i + 1);
    SplitSecond(src, '/');
    assert src[i + 1..|src|] == rest;
  }

  /**
   * A type `major/subtype` followed by parameters (`;codecs=opus`) or by nothing
   * gives `subtype` as its extension.
   */
  lemma ExtensionOfType(major: string, subtype: string, params: string)
    requires '/' !in major && '/' !in subtype && ';' !in subtype && '/' !in params
    requires params == [] || params[0] == ';'
    ensures Extension(major + "/" + subtype + params) == Some(subtype)
  {
    assert major + "/" + subtype + params == major + "/" + (subtype + params);
    SubtypeOf(major, subtype + params);
    SplitFirst(subtype, ';', params);
  }

  /** WebM with a codec parameter (`audio/webm;codecs=opus`) gives `webm`, the subtype without the parameter. */
  lemma ExtensionWithCodecs(codecs: string)
    requires '/' !in codecs
    ensures Extension(WebM + ";codecs=" + codecs) == Some("webm")
  {
    var params := ";codecs=" + codecs;
    assert '/' !in params by {
      assert forall t :: 8 <= t < |params| ==> params[t] == codecs[t - 8];
    }
    ExtensionOfType("audio", "webm", params);
    assert WebM + ";codecs=" + codecs == "audio" + "/" + "webm" + (";codecs=" + codecs);
  }

  /** The Ogg type gives the extension `ogg`. */
  lemma ExtensionOfOgg()
    ensures Extension(Ogg) == Some("ogg")
  {
    ExtensionOfType("audio", "ogg", "");
    assert "audio" + "/" + "ogg" + "" == Ogg;
  }

  /** A recorder that reports no type uploads `recording.webm`. */
  lemma UploadNameOfFallback()
    ensures UploadName(SourceType("")) == Some("recording.webm")
  {
    ExtensionOfType("audio", "webm", "");
    assert "audio" + "/" + "webm" + "" == FallbackType;
    assert "recording." + "webm" == "recording.webm";
  }
}
