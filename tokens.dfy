/** The token counter of the chunking engine. The subword encoding is a
    foreign library; it is represented by an arbitrary deterministic function
    from text to token ids, present only when the vocabulary loaded. */
module Tokens {

  /** The tokenizer slot of the database object: loaded once at start-up, or
      permanently unavailable after a failed load. */
  datatype Tokenizer = Loaded(encode: string -> seq<nat>) | Unavailable

  /** Number of tokens in text: the length of its encoding, or one token per
      four characters (rounded down) without a vocabulary. */
  function CountTokens(tk: Tokenizer, text: string): (n: nat)
    ensures tk.Loaded? ==> n == |tk.encode(text)|
    ensures tk.Unavailable? ==> 4 * n <= |text| < 4 * n + 4
  {
    match tk
    case Loaded(encode) => |encode(text)|
    case Unavailable => |text| / 4
  }
}
