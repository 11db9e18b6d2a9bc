/**
 * The checks the dashboard makes on its forms before it calls the remote
 * service (AdminDashboard.js lines 83-86, 151-154, 296-307, 865-868). Each
 * gives the message shown for a refused input, or None when the input may
 * be sent.
 */
module Validation {
  import opened Outcomes
  import opened Text
  import opened Collections

  /** The largest accepted image, 5 MB. */
  const MaxImageBytes := 5 * 1024 * 1024

  const AllowedImageTypes := ["image/png", "image/jpeg", "image/jpg", "image/gif", "image/webp"]

  /** What the handler reads of a chosen file. */
  datatype ImageFile = ImageFile(size: int, mimeType: string)

  /** A new video needs a YouTube reference and a title, both non-empty as typed. */
  function VideoFormProblem(f: VideoForm): Option<string> {
    if f.youtubeId == "" || f.title == "" then Some("YouTube ID and Title are required") else None
  }

  /** An answer needs a selected question and some text that is not only whitespace. */
  function AnswerProblem(selected: Option<Question>, text: string): Option<string> {
    if selected.None? || Trim(text) == "" then Some("Please provide an answer") else None
  }

  /** The size is checked first, then the type. */
  function ImageProblem(f: ImageFile): Option<string> {
    if f.size > MaxImageBytes then Some("File terlalu besar! Maksimal 5MB")
    else if f.mimeType !in AllowedImageTypes then
      Some("Format file tidak valid! Gunakan PNG, " + "JPG, GIF, atau WebP")
    else None
  }

  /** A new article needs a title. */
  function ArticleProblem(d: ArticleDraft): Option<string> {
    if d.title == "" then Some("Title wajib diisi!") else None
  }

  /**
   * An answer is accepted exactly when a question is selected and the text
   * holds at least one character that is not whitespace.
   */
  lemma AnswerAcceptedIff(selected: Option<Question>, text: string)
    ensures AnswerProblem(selected, text) == None <==>
              selected.Some? && exists k :: 0 <= k < |text| && !IsSpace(text[k])
  {
    TrimBlankIffAllSpace(text);
  }

  /** An image is accepted exactly when it is at most 5 MB and of one of the five types. */
  lemma ImageAcceptedIff(f: ImageFile)
    ensures ImageProblem(f) == None <==> f.size <= MaxImageBytes && f.mimeType in AllowedImageTypes
    ensures f.size > MaxImageBytes ==> ImageProblem(f) == Some("File terlalu besar! Maksimal 5MB")
  {
  }
}
