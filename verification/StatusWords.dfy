/** Which broker words fit which status, word by word (joker/ledger/reconciliation.py). */
module StatusWords {
  import opened Options
  import opened Projection
  import opened Reconciliation
  import opened Text

  const WORKING := {Submitted, Accepted, PartiallyFilled}

  /** The statuses a broker's word stands for, once it is stripped and in small letters. */
  function StatusesFor(word: string): set<OrderStatus> {
    if word in {"submitted", "pending"} then {Submitted}
    else if word == "new" then {Submitted, Accepted}
    else if word == "open" then {Submitted, Accepted, PartiallyFilled}
    else if word == "accepted" then {Accepted}
    else if word in {"working", "partially_filled"} then {Accepted, PartiallyFilled}
    else if word == "partial" then {PartiallyFilled}
    else if word in {"filled", "complete", "completed"} then {Filled}
    else if word in {"cancelled", "canceled"} then {Cancelled}
    else if word == "rejected" then {Rejected}
    else {}
  }

  /** A word fits exactly the statuses it stands for; any word not listed fits none. */
  lemma WordFitsExactly(status: OrderStatus, text: string)
    ensures Compatible(status, text) <==> status in StatusesFor(Lower(Strip(text)))
  {
  }

  /** No word fits both a working and a closed status, so a compatible word settles whether an order is over. */
  lemma NoWordIsAmbiguous(text: string, s: OrderStatus, t: OrderStatus)
    requires Compatible(s, text) && Compatible(t, text)
    ensures s in WORKING <==> t in WORKING
    ensures s !in WORKING ==> s == t
  {
    WordFitsExactly(s, text);
    WordFitsExactly(t, text);
  }

  /** Blanks around a word and capitals in it make no difference. */
  lemma SpellingIsIrrelevant(status: OrderStatus, a: string, word: string, b: string)
    requires AllBlank(a) && AllBlank(b) && word != "" && forall c :: c in word ==> !IsSpace(c)
    ensures Compatible(status, a + Upper(word) + b) <==> Compatible(status, word)
  {
    var big := Upper(word);
    assert word[0] in word && word[|word| - 1] in word;
    assert forall c :: !IsSpace(c) ==> !IsSpace(UpperChar(c));
    StripDropsBlanks(a, big, b);
    StripDropsBlanks("", word, "");
    assert "" + word + "" == word;
    LowerUndoesUpper(word);
  }
}
