/**
 * The intent classifier and response generator (DoubaoApiService) in their
 * present form: a substring rule and a fixed reply.
 */
module DoubaoApi {
  import Text

  const PhotoIntent: string := "拍照"
  const ChatIntent: string := "聊天"
  const AnalysisReply: string := "好的，照片已经分析完毕。我看到照片里有一只可爱的猫咪。"
  /** What the speech recognizer currently reports for every utterance. */
  const RecognizedSpeech: string := "请拍照"

  /** The service keeps the two credentials it was constructed with. */
  datatype DoubaoApiService = DoubaoApiService(apiKey: string, secretKey: string) {

    /** "拍照" exactly when the text contains "拍照", and "聊天" otherwise. */
    function DetectIntent(text: string): (intent: string)
      ensures intent == PhotoIntent <==> Text.Contains(text, PhotoIntent)
      ensures intent == ChatIntent <==> !Text.Contains(text, PhotoIntent)
    {
      assert PhotoIntent[0] != ChatIntent[0];
      Text.FindDecidesContains(text, PhotoIntent);
      if Text.Find(text, PhotoIntent, 0).Some? then PhotoIntent else ChatIntent
    }

    /** The same non-empty reply whatever the analysis and the question. */
    function GenerateResponseFromAnalysis(analysis: string, query: string): (reply: string)
      ensures |reply| > 0
    {
      AnalysisReply
    }
  }

  lemma ReplyIgnoresInputs(service: DoubaoApiService, a: string, q: string, a': string, q': string)
    ensures service.GenerateResponseFromAnalysis(a, q) == service.GenerateResponseFromAnalysis(a', q')
  {
  }

  /** The recognizer's fixed result is classified as a photo request. */
  lemma RecognizedSpeechIsPhotoIntent(service: DoubaoApiService)
    ensures service.DetectIntent(RecognizedSpeech) == PhotoIntent
  {
    assert Text.OccursAt(RecognizedSpeech, PhotoIntent, 1);
  }
}
