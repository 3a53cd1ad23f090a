/** The option bits of `glue_solve` (its private `flag_*` constants): one bit
    per option in an unsigned word. */
module GlueSolveFlags {

  /** `uword`, taken as 32 bits wide (the default without ARMA_64BIT_WORD). */
  type UWord = bv32

  const FlagFallback: UWord    := 1 << 0
  const FlagEquilibrate: UWord := 1 << 1
  const FlagRefine: UWord      := 1 << 2
  const FlagRankdef: UWord     := 1 << 3
  const FlagSympd: UWord       := 1 << 4
  const FlagSymu: UWord        := 1 << 5
  const FlagSyml: UWord        := 1 << 6
  const FlagTriu: UWord        := 1 << 7
  const FlagTril: UWord        := 1 << 8

  /** The nine flags in bit order. */
  const AllFlags: seq<UWord> :=
    [FlagFallback, FlagEquilibrate, FlagRefine, FlagRankdef, FlagSympd,
     FlagSymu, FlagSyml, FlagTriu, FlagTril]

  /** The options a word can carry, one boolean per flag. */
  datatype Options = Options(
    fallback: bool, equilibrate: bool, refine: bool, rankdef: bool, sympd: bool,
    symu: bool, syml: bool, triu: bool, tril: bool)

  /** `bool(flags & flag)` */
  predicate Has(word: UWord, flag: UWord) {
    word & flag != 0
  }

  function Bit(set_: bool, flag: UWord): UWord {
    if set_ then flag else 0
  }

  /** The word holding exactly the options set in o. */
  function Encode(o: Options): (w: UWord)
    ensures w < 512
    ensures Has(w, FlagFallback) == o.fallback
    ensures Has(w, FlagEquilibrate) == o.equilibrate
    ensures Has(w, FlagRefine) == o.refine
    ensures Has(w, FlagRankdef) == o.rankdef
    ensures Has(w, FlagSympd) == o.sympd
    ensures Has(w, FlagSymu) == o.symu
    ensures Has(w, FlagSyml) == o.syml
    ensures Has(w, FlagTriu) == o.triu
    ensures Has(w, FlagTril) == o.tril
  {
    Bit(o.fallback, FlagFallback) | Bit(o.equilibrate, FlagEquilibrate) | Bit(o.refine, FlagRefine)
    | Bit(o.rankdef, FlagRankdef) | Bit(o.sympd, FlagSympd) | Bit(o.symu, FlagSymu)
    | Bit(o.syml, FlagSyml) | Bit(o.triu, FlagTriu) | Bit(o.tril, FlagTril)
  }

  /** The options a word carries; bits above the ninth carry none. */
  function Decode(w: UWord): (o: Options)
    ensures Encode(o) == w & 0x1FF
  {
    Options(Has(w, FlagFallback), Has(w, FlagEquilibrate), Has(w, FlagRefine),
            Has(w, FlagRankdef), Has(w, FlagSympd), Has(w, FlagSymu),
            Has(w, FlagSyml), Has(w, FlagTriu), Has(w, FlagTril))
  }

  /** Decoding an encoded option set gives it back. */
  lemma DecodeEncode(o: Options)
    ensures Decode(Encode(o)) == o
  {
  }

  /** Flag k is the single bit 1 << k. */
  lemma FlagsAreSingleBits()
    ensures forall k | 0 <= k < |AllFlags| :: AllFlags[k] == 1 << k
    ensures forall k | 0 <= k < |AllFlags| :: AllFlags[k] != 0 && AllFlags[k] & (AllFlags[k] - 1) == 0
  {
  }

  /** No two flags share a bit. */
  lemma FlagsDisjoint()
    ensures forall i, j | 0 <= i < j < |AllFlags| :: AllFlags[i] & AllFlags[j] == 0
  {
  }

  /** The encoding alone does not stop both members of a pair being set:
      `symu` with `syml`, and `triu` with `tril`, decode as both set. */
  lemma PairsNotExclusive()
    ensures var o := Decode(FlagSymu | FlagSyml | FlagTriu | FlagTril);
            o.symu && o.syml && o.triu && o.tril
  {
  }
}
