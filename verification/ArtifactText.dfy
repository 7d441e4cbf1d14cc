/** The store's own text files. They are written as given and read back with universal newlines: every
    "\r\n" and every other "\r" comes back as "\n". */
module ArtifactText {
  function AsRead(text: string): string {
    if text == "" then ""
    else if text[0] == '\r' then "\n" + AsRead(text[(if |text| > 1 && text[1] == '\n' then 2 else 1)..])
    else [text[0]] + AsRead(text[1..])
  }

  lemma {:induction false} NoReturnIsRead(text: string)
    ensures '\r' !in AsRead(text)
  {
    if text != "" {
      NoReturnIsRead(text[(if text[0] == '\r' && |text| > 1 && text[1] == '\n' then 2 else 1)..]);
    }
  }

  /** Reading gives back what was written exactly when that holds no carriage return. */
  lemma {:induction false} ReadBackIff(text: string)
    ensures AsRead(text) == text <==> '\r' !in text
  {
    NoReturnIsRead(text);
    if text != "" && '\r' !in text {
      ReadBackIff(text[1..]);
      assert text == [text[0]] + text[1..];
    }
  }

  lemma ReadTwice(text: string)
    ensures AsRead(AsRead(text)) == AsRead(text)
  {
    NoReturnIsRead(text);
    ReadBackIff(AsRead(text));
  }
}
