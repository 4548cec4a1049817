/** The completion call of chat_gemini.py: the Gemini SDK call is a given function, and an exception it
    raises becomes the answer text. */
module ChatModel {
  import opened Common

  /** The text `get_response` puts in front of the exception message. */
  const ErrorMarker: string := "\U{26A0}\U{FE0F} Gemini API Error: "

  /** `ChatGemini.get_response(prompt)`. `generate` stands for `model.generate_content(prompt).text`:
      Success with the text, or Failure with `str(e)` of the exception it raised. */
  function GetResponse(generate: string -> Result<string, string>, prompt: string): (reply: string)
    ensures generate(prompt).Success? ==> reply == generate(prompt).value
    ensures generate(prompt).Failure? ==>
              && |reply| == |ErrorMarker| + |generate(prompt).error|
              && reply[..|ErrorMarker|] == ErrorMarker
              && reply[|ErrorMarker|..] == generate(prompt).error
  {
    match generate(prompt)
    case Success(text) => text
    case Failure(e) => ErrorMarker + e
  }
}
