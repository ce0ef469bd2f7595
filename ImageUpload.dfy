/** The `ImageUpload` component (src/components/ImageUpload/index.tsx): the
    checks a chosen file must pass, and the `imageUrl`/`loading` state around
    the upload. The asynchronous upload is split at its `await`: the handler
    runs up to the call of `onImageUpload`, and `UploadSettled` runs what
    follows once that call resolves or rejects. */
module ImageUpload {
  import opened Js
  import opened Browser

  const DefaultMaxSize := 5
  const InvalidTypeNotice := "请上传有效的图片文件"
  const UploadedNotice := "图片上传成功"
  const FailedNotice := "图片上传失败，请重试"

  /** The chosen file: its MIME type and its size in bytes. */
  datatype File = File(mimeType: string, size: nat)

  /** How the caller's `onImageUpload` promise settles. */
  datatype UploadResult = Uploaded(url: string) | Failed

  /** What the handler decides about a selection. */
  datatype Verdict = NoFile | BadType | TooLarge | Accepted

  function LowerChar(c: char): char {
    if 'A' <= c <= 'Z' then (c as int + 32) as char else c
  }

  /** ASCII lower case: the only case folding a non-Unicode `/i` pattern over
      these letters performs. */
  function Lower(s: string): (r: string)
    ensures |r| == |s| && forall i :: 0 <= i < |s| ==> r[i] == LowerChar(s[i])
  {
    if |s| == 0 then [] else [LowerChar(s[0])] + Lower(s[1..])
  }

  /** `type.match(/(jpeg|jpg|png|gif)/i)`: one of the four names occurs
      anywhere in the type, in any letter case. */
  predicate AcceptedType(mimeType: string) {
    var t := Lower(mimeType);
    Contains(t, "jpeg") || Contains(t, "jpg") || Contains(t, "png") || Contains(t, "gif")
  }

  /** `maxSize * 1024 * 1024`, in bytes. */
  function MaxBytes(maxSize: nat): nat {
    maxSize * 1024 * 1024
  }

  function SizeNotice(maxSize: nat): string {
    "图片大小不能超过" + NatText(maxSize) + "MB"
  }

  /** The checks in the handler's order: a file, then its type, then its size. */
  function Check(file: Option<File>, maxSize: nat): (v: Verdict)
    ensures v == Accepted <==> file.Some? && AcceptedType(file.value.mimeType) && file.value.size <= MaxBytes(maxSize)
    ensures v == TooLarge <==> file.Some? && AcceptedType(file.value.mimeType) && file.value.size > MaxBytes(maxSize)
    ensures v == BadType <==> file.Some? && !AcceptedType(file.value.mimeType)
  {
    if file.None? then NoFile
    else if !AcceptedType(file.value.mimeType) then BadType
    else if file.value.size > MaxBytes(maxSize) then TooLarge
    else Accepted
  }

  /** A file exactly at the limit is accepted; one byte more is refused. The
      default limit is 5 MiB. */
  lemma SizeLimitIsInclusive(mimeType: string, maxSize: nat)
    requires AcceptedType(mimeType)
    ensures Check(Some(File(mimeType, MaxBytes(maxSize))), maxSize) == Accepted
    ensures Check(Some(File(mimeType, MaxBytes(maxSize) + 1)), maxSize) == TooLarge
    ensures MaxBytes(DefaultMaxSize) == 5242880
  {
  }

  /** The type is judged before the size: an oversized file of the wrong type
      gets the type notice. */
  lemma TypeCheckedFirst(file: File, maxSize: nat)
    requires !AcceptedType(file.mimeType)
    ensures Check(Some(file), maxSize) == BadType
  {
  }

  /** Lower-casing changes nothing in a text without capitals. */
  lemma {:induction false} LowerOfLowercase(s: string)
    requires forall i :: 0 <= i < |s| ==> !('A' <= s[i] <= 'Z')
    ensures Lower(s) == s
  {
    if |s| > 0 {
      LowerOfLowercase(s[1..]);
      assert s == [s[0]] + s[1..];
    }
  }

  /** Every type of the input's default `accept` list passes. */
  lemma DefaultAcceptListPasses(sub: string)
    requires sub in ["jpeg", "png", "gif"]
    ensures AcceptedType("image/" + sub)
  {
    var t := "image/" + sub;
    LowerOfLowercase(t);
    assert t[6..] == sub;
    assert OccursAt(t, sub, 6);
  }

  /** Lower-casing twice is lower-casing once. */
  lemma LowerIdempotent(s: string)
    ensures Lower(Lower(s)) == Lower(s)
  {
    assert forall i :: 0 <= i < |s| ==> LowerChar(LowerChar(s[i])) == LowerChar(s[i]);
  }

  /** Letter case does not matter: two types that differ only in the case of
      their letters are both accepted or both refused, and a type is accepted
      exactly when its lower-case form is. */
  lemma CapitalsAccepted(s: string, t: string)
    requires |s| == |t| && forall i :: 0 <= i < |s| ==> LowerChar(s[i]) == LowerChar(t[i])
    ensures AcceptedType(s) <==> AcceptedType(t)
    ensures AcceptedType(Lower(s)) <==> AcceptedType(s)
  {
    assert Lower(s) == Lower(t);
    LowerIdempotent(s);
  }

  /** An instance: the upper-case spelling of a listed type passes. */
  lemma UpperCaseJpegAccepted()
    ensures AcceptedType("IMAGE/JPEG")
  {
    var u := Lower("IMAGE/JPEG");
    assert u[6..10] == "jpeg" by {
      assert u[6] == LowerChar('J') == 'j' && u[7] == LowerChar('P') == 'p';
      assert u[8] == LowerChar('E') == 'e' && u[9] == LowerChar('G') == 'g';
    }
    assert OccursAt(u, "jpeg", 6);
  }

  /** A type naming none of the four formats is refused. */
  lemma WebpRefused()
    ensures !AcceptedType("image/webp")
  {
    var w := "image/webp";
    LowerOfLowercase(w);
    NotOccurring(w, "jpeg");
    NotOccurring(w, "jpg");
    NotOccurring(w, "png");
    NotOccurring(w, "gif");
  }

  /** None of the four names occurs in `image/webp`. */
  lemma NotOccurring(w: string, sub: string)
    requires w == "image/webp" && sub in ["jpeg", "jpg", "png", "gif"]
    ensures !Contains(w, sub)
  {
    forall i | 0 <= i <= |w| - |sub| ensures !OccursAt(w, sub, i) {
      assert w[i..i + |sub|][0] == w[i];
      assert w[i..i + |sub|][1] == w[i + 1];
    }
  }

  class ImageUpload {
    var imageUrl: string
    var loading: bool
    /** The `value` of the file input. */
    var inputValue: string
    /** The `maxSize` prop, in MB. */
    var maxSize: nat
    /** The notifications shown so far, oldest first. */
    var toasts: seq<Toast>

    constructor (initialImage: string, maxSize: nat)
      ensures imageUrl == initialImage && !loading && this.maxSize == maxSize && toasts == []
    {
      imageUrl := initialImage;
      loading := false;
      inputValue := "";
      this.maxSize := maxSize;
      toasts := [];
    }

    /** `handleImageChange` up to its `await`: a refused file only adds a
        notice; an accepted one sets `loading` and is handed to the upload,
        which `upload` returns. */
    method HandleImageChange(file: Option<File>) returns (upload: Option<File>)
      modifies this
      ensures imageUrl == old(imageUrl) && maxSize == old(maxSize) && inputValue == old(inputValue)
      ensures upload.Some? <==> Check(file, maxSize) == Accepted
      ensures upload.Some? ==> upload == file && loading && toasts == old(toasts)
      ensures Check(file, maxSize) == NoFile ==> loading == old(loading) && toasts == old(toasts)
      ensures Check(file, maxSize) == BadType ==>
        loading == old(loading) && toasts == old(toasts) + [Toast(Error, InvalidTypeNotice)]
      ensures Check(file, maxSize) == TooLarge ==>
        loading == old(loading) && toasts == old(toasts) + [Toast(Error, SizeNotice(maxSize))]
    {
      upload := None;
      if file.None? {
        return;
      }
      if !AcceptedType(file.value.mimeType) {
        toasts := toasts + [Toast(Error, InvalidTypeNotice)];
        return;
      }
      var maxSizeBytes := maxSize * 1024 * 1024;
      if file.value.size > maxSizeBytes {
        toasts := toasts + [Toast(Error, SizeNotice(maxSize))];
        return;
      }
      loading := true;
      upload := file;
    }

    /** The rest of the handler once the upload settles: a returned URL
        replaces the image, a failure keeps it; either way a notice is shown,
        `loading` ends and the input is cleared so the same file can be chosen
        again. */
    method UploadSettled(result: UploadResult)
      modifies this
      ensures maxSize == old(maxSize) && !loading && inputValue == ""
      ensures result.Uploaded? ==> imageUrl == result.url && toasts == old(toasts) + [Toast(Success, UploadedNotice)]
      ensures result.Failed? ==> imageUrl == old(imageUrl) && toasts == old(toasts) + [Toast(Error, FailedNotice)]
    {
      match result {
        case Uploaded(url) =>
          imageUrl := url;
          toasts := toasts + [Toast(Success, UploadedNotice)];
        case Failed =>
          toasts := toasts + [Toast(Error, FailedNotice)];
      }
      loading := false;
      inputValue := "";
    }

    /** `handleRemoveImage`. */
    method RemoveImage()
      modifies this
      ensures imageUrl == "" && loading == old(loading) && toasts == old(toasts)
      ensures inputValue == old(inputValue) && maxSize == old(maxSize)
    {
      imageUrl := "";
    }
  }
}
