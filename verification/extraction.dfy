/** The dictionary view the endpoints take of an extraction result, whichever service
    produced it: they read its `status`, its `error` and (with a default) its
    `full_text`. */
module Extraction {
  import opened Wrappers
  import Vision
  import Document

  datatype Extracted = FromVision(vision: Vision.Payload) | FromDocument(document: Document.Payload)
  {
    /** `result["status"]`. */
    function Status(): (s: string)
      ensures FromDocument? ==> s == document.Status()
      ensures FromVision? ==> s == vision.status
    {
      match this
      case FromVision(v) => v.status
      case FromDocument(d) => d.Status()
    }

    /** `result.get("error")`: `None` where the dictionary has no `error` key. */
    function Error(): (e: Option<string>)
      ensures FromDocument? ==> (e.Some? <==> document.Failed?)
      ensures FromDocument? && document.Failed? ==> e == Some(document.error)
      ensures FromVision? ==> e == vision.error
    {
      match this
      case FromVision(v) => v.error
      case FromDocument(d) => if d.Failed? then Some(d.error) else None
    }

    /** `result.get("full_text")`: a failed document analysis has no such key. */
    function FullText(): (t: Option<string>)
      ensures FromVision? ==> t == Some(vision.fullText)
      ensures FromDocument? ==> (t.None? <==> document.Failed?)
      ensures FromDocument? && document.Analyzed? ==> t == Some(document.fullText)
    {
      match this
      case FromVision(v) => Some(v.fullText)
      case FromDocument(d) => if d.Analyzed? then Some(d.fullText) else None
    }
  }

  /** What the vision service returns on failure is reported as an error with its
      message. */
  lemma VisionFailureIsError(message: string)
    ensures var x := FromVision(Vision.FailurePayload(message));
      x.Status() == "error" && x.Error() == Some(message) && x.FullText() == Some("")
  {
  }
}
