/** The error kinds of the server (src/error.rs) and their two message mappings. */
module Errors {
  import opened Wrappers

  /** The five error kinds, in declaration order. */
  datatype MudError = NoAddress | InvalidAddress | VerbNoClient | VerbNotFound | VerbnoClients

  /** The text `Display::fmt` writes for each kind. */
  function Display(e: MudError): string
  {
    match e
    case NoAddress => "No address has been bound to the server."
    case InvalidAddress => "The address is invalid."
    case VerbNoClient => "No client provided to the verb."
    case VerbNotFound => "The verb was not found."
    case VerbnoClients => "No clients provided to the verb."
  }

  /** The text `Error::description` returns for each kind. */
  function Description(e: MudError): string
  {
    match e
    case NoAddress => "No address has been bound to the server."
    case InvalidAddress => "The address is invalid."
    case VerbNoClient => "No client provided to the verb."
    case VerbNotFound => "The verb was not found."
    case VerbnoClients => "No clients provided to the verb."
  }

  /** Recovers the kind from a message; the inverse of `Display`. */
  function FromMessage(s: string): (r: Option<MudError>)
    ensures r.Some? ==> Display(r.value) == s && Description(r.value) == s
  {
    if s == Display(NoAddress) then Some(NoAddress)
    else if s == Display(InvalidAddress) then Some(InvalidAddress)
    else if s == Display(VerbNoClient) then Some(VerbNoClient)
    else if s == Display(VerbNotFound) then Some(VerbNotFound)
    else if s == Display(VerbnoClients) then Some(VerbnoClients)
    else None
  }

  /** Both mappings give the same text for every kind. */
  lemma DisplayIsDescription(e: MudError)
    ensures Display(e) == Description(e)
  {
  }

  /** A message determines its kind: parsing a displayed message gives the kind back. */
  lemma MessageRoundTrip(e: MudError)
    ensures FromMessage(Display(e)) == Some(e)
  {
    match e
    case NoAddress =>
    case InvalidAddress =>
      assert Display(InvalidAddress)[0] != Display(NoAddress)[0];
    case VerbNoClient =>
      assert |Display(VerbNoClient)| != |Display(NoAddress)|;
      assert |Display(VerbNoClient)| != |Display(InvalidAddress)|;
    case VerbNotFound =>
      assert Display(VerbNotFound)[4] != Display(InvalidAddress)[4];
      assert |Display(VerbNotFound)| != |Display(NoAddress)|;
      assert |Display(VerbNotFound)| != |Display(VerbNoClient)|;
    case VerbnoClients =>
      assert |Display(VerbnoClients)| != |Display(NoAddress)|;
      assert |Display(VerbnoClients)| != |Display(InvalidAddress)|;
      assert |Display(VerbnoClients)| != |Display(VerbNoClient)|;
      assert |Display(VerbnoClients)| != |Display(VerbNotFound)|;
  }

  /** The five messages are pairwise distinct; in particular the two
      "no client" kinds read differently. */
  lemma MessagesDistinct(e1: MudError, e2: MudError)
    ensures Display(e1) == Display(e2) ==> e1 == e2
  {
    MessageRoundTrip(e1);
    MessageRoundTrip(e2);
  }
}
