/**
 * The question dictionary's keys: its 69 codes are pairwise different, so
 * the descriptions dict the home page builds from it holds every entry.
 */
module QuestionKeys {
  import opened PyDict
  import opened Config

  /**
   * The position of code `k` in the question dictionary literal, read off
   * its length and then its characters one at a time; -1 for any other text.
   */
  function CodePosition(k: string): int
  {
    if |k| == 3 then
      (if k[0] == 'Q' then (if k[1] == '1' then (if k[2] == '3' then 0
          else if k[2] == '5' then 1
          else -1)
        else if k[1] == '6' then (if k[2] == '0' then 2
          else if k[2] == '1' then 3
          else -1)
        else if k[1] == '2' then (if k[2] == '1' then 25
          else -1)
        else if k[1] == '5' then (if k[2] == '8' then 39
          else if k[2] == '9' then 40
          else -1)
        else -1)
      else if k[0] == 'X' then (if k[1] == 'Q' then (if k[2] == '8' then 23
          else -1)
        else -1)
      else -1)
    else if |k| == 4 then
      (if k[0] == 'Q' then (if k[1] == '6' then (if k[2] == '2' then (if k[3] == 'A' then 4
            else if k[3] == 'C' then 5
            else if k[3] == 'F' then 6
            else if k[3] == 'D' then 41
            else if k[3] == 'E' then 42
            else if k[3] == 'H' then 43
            else -1)
          else -1)
        else if k[1] == '1' then (if k[2] == '3' then (if k[3] == '1' then 16
            else if k[3] == '3' then 17
            else -1)
          else -1)
        else if k[1] == '5' then (if k[2] == '4' then (if k[3] == 'A' then 26
            else if k[3] == 'B' then 27
            else if k[3] == 'C' then 28
            else if k[3] == 'D' then 29
            else if k[3] == 'E' then 30
            else -1)
          else -1)
        else if k[1] == '7' then (if k[2] == '9' then (if k[3] == 'A' then 47
            else if k[3] == 'B' then 48
            else if k[3] == 'C' then 49
            else if k[3] == 'D' then 50
            else if k[3] == 'E' then 52
            else if k[3] == 'F' then 53
            else if k[3] == 'G' then 54
            else if k[3] == 'H' then 55
            else if k[3] == 'I' then 56
            else if k[3] == 'J' then 57
            else -1)
          else -1)
        else -1)
      else if k[0] == 'A' then (if k[1] == '1' then (if k[2] == '2' then (if k[3] == '1' then 8
            else -1)
          else -1)
        else -1)
      else if k[0] == 'X' then (if k[1] == 'Q' then (if k[2] == '3' then (if k[3] == 'A' then 22
            else -1)
          else if k[2] == '8' then (if k[3] == '1' then 46
            else -1)
          else -1)
        else -1)
      else if k[0] == 'N' then (if k[1] == 'Q' then (if k[2] == '2' then (if k[3] == '1' then 24
            else -1)
          else -1)
        else -1)
      else -1)
    else if |k| == 5 then
      (if k[0] == 'Q' then (if k[1] == '6' then (if k[2] == '2' then (if k[3] == 'T' then (if k[4] == 'G' then 7
              else if k[4] == 'J' then 44
              else -1)
            else -1)
          else -1)
        else -1)
      else if k[0] == 'N' then (if k[1] == 'Q' then (if k[2] == '6' then (if k[3] == '2' then (if k[4] == 'D' then 13
              else if k[4] == 'A' then 45
              else -1)
            else -1)
          else if k[2] == '4' then (if k[3] == '4' then (if k[4] == 'A' then 36
              else -1)
            else if k[3] == '8' then (if k[4] == 'A' then 37
              else -1)
            else if k[3] == '9' then (if k[4] == 'B' then 38
              else -1)
            else -1)
          else if k[2] == '7' then (if k[3] == '9' then (if k[4] == 'D' then 51
              else -1)
            else -1)
          else -1)
        else -1)
      else if k[0] == 'S' then (if k[1] == 'Q' then (if k[2] == '7' then (if k[3] == '9' then (if k[4] == 'B' then 60
              else if k[4] == 'C' then 61
              else -1)
            else -1)
          else -1)
        else -1)
      else if k[0] == 'X' then (if k[1] == 'Q' then (if k[2] == '1' then (if k[3] == '2' then (if k[4] == '2' then 63
              else -1)
            else -1)
          else -1)
        else -1)
      else -1)
    else if |k| == 6 then
      (if k[0] == 'X' then (if k[1] == 'Q' then (if k[2] == '1' then (if k[3] == '2' then (if k[4] == '2' then (if k[5] == 'B' then 15
                else -1)
              else -1)
            else if k[3] == '0' then (if k[4] == '6' then (if k[5] == 'B' then 62
                else -1)
              else -1)
            else -1)
          else -1)
        else -1)
      else if k[0] == 'N' then (if k[1] == 'Q' then (if k[2] == '5' then (if k[3] == '7' then (if k[4] == 'A' then (if k[5] == 'A' then 31
                else if k[5] == 'B' then 32
                else if k[5] == 'C' then 33
                else if k[5] == 'D' then 34
                else if k[5] == 'E' then 35
                else -1)
              else -1)
            else -1)
          else if k[2] == '7' then (if k[3] == '9' then (if k[4] == 'B' then (if k[5] == 'C' then 58
                else if k[5] == 'D' then 59
                else -1)
              else -1)
            else -1)
          else -1)
        else -1)
      else if k[0] == 'Q' then (if k[1] == '3' then (if k[2] == '9' then (if k[3] == 'A' then (if k[4] == '_' then (if k[5] == '2' then 68
                else -1)
              else -1)
            else -1)
          else -1)
        else -1)
      else -1)
    else if |k| == 7 then
      (if k[0] == 'N' then (if k[1] == 'Q' then (if k[2] == '1' then (if k[3] == '3' then (if k[4] == '5' then (if k[5] == 'B' then (if k[6] == 'D' then 9
                  else if k[6] == 'E' then 10
                  else if k[6] == 'F' then 11
                  else if k[6] == 'G' then 12
                  else if k[6] == 'H' then 14
                  else -1)
                else -1)
              else -1)
            else -1)
          else -1)
        else if k[1] == 'P' then (if k[2] == 'Q' then (if k[3] == '1' then (if k[4] == '3' then (if k[5] == '5' then (if k[6] == 'A' then 18
                  else -1)
                else -1)
              else -1)
            else -1)
          else -1)
        else if k[1] == 'N' then (if k[2] == 'Q' then (if k[3] == '1' then (if k[4] == '3' then (if k[5] == '5' then (if k[6] == 'A' then 19
                  else -1)
                else -1)
              else -1)
            else -1)
          else -1)
        else -1)
      else if k[0] == 'X' then (if k[1] == 'N' then (if k[2] == 'Q' then (if k[3] == '1' then (if k[4] == '3' then (if k[5] == '5' then (if k[6] == 'B' then 20
                  else -1)
                else -1)
              else -1)
            else -1)
          else -1)
        else -1)
      else if k[0] == 'R' then (if k[1] == 'e' then (if k[2] == 'N' then (if k[3] == 'Q' then (if k[4] == '1' then (if k[5] == '4' then (if k[6] == '7' then 21
                  else -1)
                else -1)
              else -1)
            else -1)
          else -1)
        else -1)
      else if k[0] == 'P' then (if k[1] == 'Q' then (if k[2] == '1' then (if k[3] == '3' then (if k[4] == '5' then (if k[5] == 'A' then (if k[6] == 'A' then 64
                  else if k[6] == 'Z' then 65
                  else -1)
                else -1)
              else -1)
            else -1)
          else -1)
        else -1)
      else -1)
    else if |k| == 8 then
      (if k[0] == 'P' then (if k[1] == 'Q' then (if k[2] == '1' then (if k[3] == '3' then (if k[4] == '5' then (if k[5] == 'A' then (if k[6] == 'A' then (if k[7] == 'A' then 66
                    else if k[7] == 'Y' then 67
                    else -1)
                  else -1)
                else -1)
              else -1)
            else -1)
          else -1)
        else -1)
      else -1)
    else -1
  }

  lemma CodePositionAt0(i: nat)
    requires 0 <= i < 18
    ensures CodePosition(QuestionCode(i)) == i
  {
  }

  lemma CodePositionAt1(i: nat)
    requires 18 <= i < 36
    ensures CodePosition(QuestionCode(i)) == i
  {
  }

  lemma CodePositionAt2(i: nat)
    requires 36 <= i < 54
    ensures CodePosition(QuestionCode(i)) == i
  {
  }

  lemma CodePositionAt3(i: nat)
    requires 54 <= i < 69
    ensures CodePosition(QuestionCode(i)) == i
  {
  }

  /** Each code of the literal reads back as its own position. */
  lemma CodePositionAt(i: nat)
    requires i < QuestionCount
    ensures CodePosition(QuestionCode(i)) == i
  {
    if i < 18 {
      CodePositionAt0(i);
    } else if i < 36 {
      CodePositionAt1(i);
    } else if i < 54 {
      CodePositionAt2(i);
    } else {
      CodePositionAt3(i);
    }
  }

  /** The question dictionary literal repeats no key. */
  lemma QuestionCodesDistinct()
    ensures forall i, j :: 0 <= i < j < QuestionCount ==> QuestionCode(i) != QuestionCode(j)
  {
    forall i, j | 0 <= i < j < QuestionCount ensures QuestionCode(i) != QuestionCode(j) {
      CodePositionAt(i);
      CodePositionAt(j);
    }
  }

  /** The descriptions dict maps each code of the literal to the short description written beside it. */
  lemma QuestionDescriptionsAt(i: nat)
    requires i < QuestionCount
    ensures QuestionCode(i) in QuestionDescriptions()
    ensures QuestionDescriptions()[QuestionCode(i)] == QuestionWording(i).1
  {
    var entries := QuestionEntries();
    QuestionKeysAt();
    QuestionCodesDistinct();
    TabulateAt(QuestionItem, QuestionCount, i);
    DictOfLastWins(entries, i);
  }

  /** The keys of the descriptions dict are exactly the codes of the literal. */
  lemma QuestionDescriptionsKeys()
    ensures forall k :: k in QuestionDescriptions() <==> exists i :: 0 <= i < QuestionCount && QuestionCode(i) == k
  {
    var entries := QuestionEntries();
    QuestionKeysAt();
    DictOfKeys(entries);
  }
}
