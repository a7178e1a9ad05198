/** Strings as C keeps them: the bytes before the first NUL. */
module CStrings {
  function CString(field: seq<int>): seq<int> {
    if field == [] || field[0] == 0 then [] else [field[0]] + CString(field[1..])
  }

  predicate NulFree(text: seq<int>) {
    forall i :: 0 <= i < |text| ==> text[i] != 0
  }

  lemma {:induction false} TerminatedText(text: seq<int>, rest: seq<int>)
    requires NulFree(text)
    ensures CString(text + [0] + rest) == text
  {
    if text != [] {
      TerminatedText(text[1..], rest);
      assert (text + [0] + rest)[1..] == text[1..] + [0] + rest;
    }
  }
}
