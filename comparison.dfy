/** The comparison table (src/components/ui/ComparisonTable.tsx): how a cell
    value renders, which side gets the winner badge, what the winner column
    shows, and the row shading. */
module ComparisonTable {
  import opened Wrappers

  /** A cell value, `string | boolean`. */
  datatype Value = Flag(flag: bool) | Text(text: string)

  datatype Rendered = CheckIcon | CrossIcon | Plain(text: string)

  /** `renderValue` */
  function RenderValue(v: Value): (r: Rendered)
    ensures v.Flag? ==> (r == CheckIcon <==> v.flag) && (r == CrossIcon <==> !v.flag)
    ensures v.Text? ==> r == Plain(v.text)
  {
    match v
    case Flag(b) => if b then CheckIcon else CrossIcon
    case Text(s) => Plain(s)
  }

  /** `'A' | 'B' | 'equal'`; a row may leave it out. */
  datatype Winner = A | B | Equal

  /** `getWinnerBadge(winner, isA)` renders the badge. */
  predicate HasBadge(winner: Option<Winner>, isA: bool) {
    if winner.None? || winner == Some(Equal) then false
    else (winner == Some(A) && isA) || (winner == Some(B) && !isA)
  }

  /** No badge without a winner or on a tie; with a winner, exactly the winning
      side's cell carries it. */
  lemma BadgeOnWinnerOnly(winner: Option<Winner>)
    ensures winner.None? || winner == Some(Equal) ==> !HasBadge(winner, true) && !HasBadge(winner, false)
    ensures HasBadge(winner, true) <==> winner == Some(A)
    ensures HasBadge(winner, false) <==> winner == Some(B)
    ensures winner == Some(A) || winner == Some(B) ==> HasBadge(winner, true) != HasBadge(winner, false)
  {
  }

  /** `title.split(' ')[0]`: the characters before the first space, or the
      whole title when it has none. */
  function FirstWord(title: string): (r: string)
    ensures r <= title
    ensures ' ' !in r
    ensures |r| < |title| ==> title[|r|] == ' '
  {
    if title == [] || title[0] == ' ' then [] else [title[0]] + FirstWord(title[1..])
  }

  /** A title whose first space follows `word` contributes exactly `word`. */
  lemma FirstWordOfSpaced(word: string, rest: string)
    requires ' ' !in word
    ensures FirstWord(word + " " + rest) == word
  {
    var t := word + " " + rest;
    assert t[|word|] == ' ';
    assert t[..|word|] == word;
  }

  datatype WinnerCell = Word(word: string) | MinusIcon | Blank

  /** The last column: the first word of the winning side's title, a minus
      sign on a tie, nothing when the row names no winner. */
  function WinnerColumn(winner: Option<Winner>, titleA: string, titleB: string): (r: WinnerCell)
    ensures r == MinusIcon <==> winner == Some(Equal)
    ensures r == Blank <==> winner.None?
    ensures winner == Some(A) ==> r == Word(FirstWord(titleA))
    ensures winner == Some(B) ==> r == Word(FirstWord(titleB))
  {
    match winner
    case None => Blank
    case Some(A) => Word(FirstWord(titleA))
    case Some(B) => Word(FirstWord(titleB))
    case Some(Equal) => MinusIcon
  }

  /** Even rows are white, odd rows shaded. */
  predicate RowShaded(index: nat) {
    !(index % 2 == 0)
  }

  /** Adjacent rows never share a background. */
  lemma RowsAlternate(index: nat)
    ensures RowShaded(index) != RowShaded(index + 1)
    ensures RowShaded(index) == RowShaded(index + 2)
  {
  }
}
