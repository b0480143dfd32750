/**
 * The borough-name normalisations. Each `.loc[df['Borough'] == old,
 * 'Borough'] = new` statement rewrites the matching cells of the borough
 * column in place; the preprocessors run five of them in a row, the trust
 * table four, the neighbourhood boundaries one.
 */
module Boroughs {

  /** One `.loc` assignment applied to a single cell. */
  function Rename(b: string, from: string, to: string): (r: string)
    ensures r == to || r == b
    ensures r != b <==> b == from && to != from
  {
    if b == from then to else b
  }

  /** The five renames, in the order the preprocessors apply them. */
  function NormaliseBorough(b: string): string
  {
    var b1 := Rename(b, "Richmond Upon Thames", "Richmond upon Thames");
    var b2 := Rename(b1, "Kensington & Chelsea", "Kensington and Chelsea");
    var b3 := Rename(b2, "Hammersmith & Fulham", "Hammersmith and Fulham");
    var b4 := Rename(b3, "Barking & Dagenham", "Barking and Dagenham");
    Rename(b4, "Westminster", "City of Westminster")
  }

  /** The names the five renames replace, with their replacements. */
  const BoroughRenames: map<string, string> := map[
    "Richmond Upon Thames" := "Richmond upon Thames",
    "Kensington & Chelsea" := "Kensington and Chelsea",
    "Hammersmith & Fulham" := "Hammersmith and Fulham",
    "Barking & Dagenham" := "Barking and Dagenham",
    "Westminster" := "City of Westminster"]

  /**
   * Running the five renames in sequence is one table lookup: no rename
   * produces a name a later one replaces. So exactly five names change.
   */
  lemma NormaliseBoroughIsLookup(b: string)
    ensures NormaliseBorough(b) == if b in BoroughRenames then BoroughRenames[b] else b
    ensures NormaliseBorough(b) != b <==> b in BoroughRenames
  {
  }

  /** A normalised name is left alone by a second normalisation. */
  lemma NormaliseBoroughIdempotent(b: string)
    ensures NormaliseBorough(NormaliseBorough(b)) == NormaliseBorough(b)
  {
    NormaliseBoroughIsLookup(b);
    NormaliseBoroughIsLookup(NormaliseBorough(b));
  }

  /** The four renames of the trust table (no Westminster rename). */
  function NormaliseTrustBorough(b: string): string
  {
    var b1 := Rename(b, "Richmond Upon Thames", "Richmond upon Thames");
    var b2 := Rename(b1, "Kensington & Chelsea", "Kensington and Chelsea");
    var b3 := Rename(b2, "Hammersmith & Fulham", "Hammersmith and Fulham");
    Rename(b3, "Barking & Dagenham", "Barking and Dagenham")
  }

  /** The trust renames change exactly four names, agree with the five elsewhere, and are idempotent. */
  lemma NormaliseTrustBoroughSpec(b: string)
    ensures NormaliseTrustBorough(b) != b <==> b in BoroughRenames && b != "Westminster"
    ensures b != "Westminster" ==> NormaliseTrustBorough(b) == NormaliseBorough(b)
    ensures NormaliseTrustBorough(NormaliseTrustBorough(b)) == NormaliseTrustBorough(b)
  {
  }

  /** `df.loc[df[col] == from, col] = to` on a column held as an array. */
  method ReplaceValue(col: array<string>, from: string, to: string)
    modifies col
    ensures forall i :: 0 <= i < col.Length ==> col[i] == Rename(old(col[i]), from, to)
  {
    var i := 0;
    while i < col.Length
      invariant 0 <= i <= col.Length
      invariant forall k :: 0 <= k < i ==> col[k] == Rename(old(col[k]), from, to)
      invariant forall k :: i <= k < col.Length ==> col[k] == old(col[k])
    {
      if col[i] == from {
        col[i] := to;
      }
      i := i + 1;
    }
  }

  /** The five `.loc` statements of the preprocessors, one after the other. */
  method NormaliseBoroughColumn(col: array<string>)
    modifies col
    ensures forall i :: 0 <= i < col.Length ==> col[i] == NormaliseBorough(old(col[i]))
  {
    ReplaceValue(col, "Richmond Upon Thames", "Richmond upon Thames");
    ReplaceValue(col, "Kensington & Chelsea", "Kensington and Chelsea");
    ReplaceValue(col, "Hammersmith & Fulham", "Hammersmith and Fulham");
    ReplaceValue(col, "Barking & Dagenham", "Barking and Dagenham");
    ReplaceValue(col, "Westminster", "City of Westminster");
  }

  /** The four `.loc` statements applied to the trust table. */
  method NormaliseTrustColumn(col: array<string>)
    modifies col
    ensures forall i :: 0 <= i < col.Length ==> col[i] == NormaliseTrustBorough(old(col[i]))
  {
    ReplaceValue(col, "Richmond Upon Thames", "Richmond upon Thames");
    ReplaceValue(col, "Kensington & Chelsea", "Kensington and Chelsea");
    ReplaceValue(col, "Hammersmith & Fulham", "Hammersmith and Fulham");
    ReplaceValue(col, "Barking & Dagenham", "Barking and Dagenham");
  }
}
