/** The market entities that the streaming and routing code passes around. */
module Market {
  import opened Wrappers

  type Symbol = string
  type Exchange = string
  type AssetKind = string

  /** An instrument is a security with a symbol, or a prediction contract without one. */
  datatype Instrument =
    | Security(kind: AssetKind, symbol: Symbol, exchange: Option<Exchange>)
    | Prediction(kind: AssetKind, contract: string)

  /** The symbols of the securities in a list, in order. */
  function SymbolsOf(insts: seq<Instrument>): (syms: seq<Symbol>)
    ensures |syms| <= |insts|
    ensures (forall inst :: inst in insts ==> inst.Security?) ==> |syms| == |insts|
  {
    if insts == [] then []
    else if insts[0].Security? then [insts[0].symbol] + SymbolsOf(insts[1..])
    else SymbolsOf(insts[1..])
  }

  lemma {:induction false} SymbolsOfMembers(insts: seq<Instrument>, s: Symbol)
    ensures s in SymbolsOf(insts) <==> exists inst :: inst in insts && inst.Security? && inst.symbol == s
  {
    if insts != [] {
      assert insts == [insts[0]] + insts[1..];
      SymbolsOfMembers(insts[1..], s);
    }
  }
}
