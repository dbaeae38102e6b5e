/** The message rule for watermarked images: `WatermarkedImage.clean` in mysite/polls/models.py
    and the checks `lunar_watermark` in mysite/polls/views.py makes before it draws. */
module Watermark {
  import opened Common

  datatype WatermarkError = MissingImage | BadMessageLength

  const MinMessageLength: nat := 10
  const MaxMessageLength: nat := 20

  /** `WatermarkedImage.clean`: the message must have 10 to 20 characters. */
  function CleanMessage(message: string): (r: Outcome<WatermarkError>)
    ensures r.Pass? <==> MinMessageLength <= |message| <= MaxMessageLength
    ensures r.Fail? ==> r.error == BadMessageLength
  {
    if |message| < 10 || |message| > 20 then Fail(BadMessageLength) else Pass
  }

  /** The handler's checks: an uploaded file under `fileimage`, then the length of `message`,
      which reads as the empty string when the key is missing. */
  function CheckRequest(hasImage: bool, message: Option<string>): (r: Outcome<WatermarkError>)
    ensures r == Fail(MissingImage) <==> !hasImage
    ensures r.Pass? <==> hasImage && message.Some? && MinMessageLength <= |message.value| <= MaxMessageLength
  {
    if !hasImage then Fail(MissingImage)
    else
      var text := match message case Some(m) => m case None => "";
      if |text| < 10 || |text| > 20 then Fail(BadMessageLength) else Pass
  }

  /** With an image attached, the handler's guard and the model's `clean` accept the same
      messages, so everything the handler stores passes the model's validation. */
  lemma HandlerAgreesWithModel(message: string)
    ensures CheckRequest(true, Some(message)) == CleanMessage(message)
  {
  }
}
