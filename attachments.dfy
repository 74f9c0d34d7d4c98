/** `IAttachment` and how the three capture handlers derive one from what the
    camera, the photo library or the document picker returns. */
module Attachments {
  import opened Text

  /** `{ uri, name, type }`; `type` is a reserved word in Dafny, hence `mimeType`. */
  datatype Attachment = Attachment(uri: string, name: string, mimeType: string)

  /** What `launchCameraAsync` and `launchImageLibraryAsync` resolve to. */
  datatype ImageResult = ImageCancelled | ImagePicked(uri: string)

  /** What `getDocumentAsync` resolves to: `type === 'success'` with a uri and
      a display name, or anything else. */
  datatype DocumentResult = DocumentCancelled | DocumentPicked(uri: string, name: string)

  const ImagePrefix := "image/"
  const PdfMime := "application/pdf"

  /** `String(uri.split('/').pop())`: the file name at the end of the uri. */
  function ImageName(uri: string): (r: string)
    ensures '/' !in r
    ensures |r| <= |uri| && r == uri[|uri| - |r|..]
    ensures |r| == |uri| || uri[|uri| - |r| - 1] == '/'
  {
    AfterLastIsLastPiece(uri, '/');
    AfterLast(uri, '/')
  }

  /** `` `image/${uri.split('.').pop()}` ``: "image/" and whatever follows the
      last dot of the whole uri. */
  function ImageMime(uri: string): (r: string)
    ensures |r| >= |ImagePrefix| && r[..|ImagePrefix|] == ImagePrefix
    ensures '.' !in r[|ImagePrefix|..]
    ensures |r| - |ImagePrefix| <= |uri|
    ensures r[|ImagePrefix|..] == uri[|uri| - (|r| - |ImagePrefix|)..]
    ensures |r| - |ImagePrefix| == |uri| || uri[|uri| - (|r| - |ImagePrefix|) - 1] == '.'
  {
    AfterLastIsLastPiece(uri, '.');
    ImagePrefix + AfterLast(uri, '.')
  }

  /** The attachment a camera or library capture stores: the uri itself, the
      slash-free tail of the uri as name, and "image/" followed by the dot-free
      tail of the uri as type. */
  function ImageAttachment(uri: string): (a: Attachment)
    ensures a.uri == uri
    ensures '/' !in a.name && |a.name| <= |uri| && a.name == uri[|uri| - |a.name|..]
    ensures |a.name| == |uri| || uri[|uri| - |a.name| - 1] == '/'
    ensures |a.mimeType| >= |ImagePrefix| && a.mimeType[..|ImagePrefix|] == ImagePrefix
  {
    Attachment(uri, ImageName(uri), ImageMime(uri))
  }

  /** The name and type are exactly the last pieces of the two `split`s the
      handlers call. */
  lemma ImageAttachmentFromSplit(uri: string)
    ensures ImageAttachment(uri).name == Split(uri, '/')[|Split(uri, '/')| - 1]
    ensures ImageAttachment(uri).mimeType == ImagePrefix + Split(uri, '.')[|Split(uri, '.')| - 1]
  {
    SplitPopIsAfterLast(uri, '/');
    SplitPopIsAfterLast(uri, '.');
  }

  /** The attachment a document capture stores: the picker's uri and display
      name, with the fixed PDF type. */
  function DocumentAttachment(uri: string, name: string): (a: Attachment)
    ensures a.uri == uri && a.name == name && a.mimeType == PdfMime
  {
    Attachment(uri, name, PdfMime)
  }

  /** When the file name has an extension, the derived type names it. */
  lemma ImageMimeIsFileExtension(uri: string)
    requires '.' in ImageName(uri)
    ensures ImageMime(uri) == ImagePrefix + AfterLast(ImageName(uri), '.')
  {
    AfterLastNested(uri, '/', '.');
  }

  /** When only a directory of the uri has a dot, the derived type is not an
      extension: it carries a '/' and the tail of the path. */
  lemma ImageMimeOfExtensionlessName(uri: string)
    requires '.' in uri && '.' !in ImageName(uri)
    ensures '/' in ImageMime(uri)[|ImagePrefix|..]
  {
    AfterLastCrossesSeparator(uri, '/', '.');
  }
}
