/** Extraction of a contract's revert reason from an error message:
    `message.split(sep)[1] || message` (App.js:460 with "revert ",
    App.js:618-620, 682-684 and 740-742 with "revert"). */
module RevertReason {
  import opened Wrappers
  import opened Text

  const Revert: string := "revert"
  const RevertSpace: string := "revert "

  /** `piece` is element 1 of `s.split(sep)`, given that the first
      occurrence of `sep` is at `k`: the text after it, up to the next
      occurrence or the end. */
  predicate IsSecondPieceAt(s: string, sep: string, k: nat, piece: string)
  {
    OccursAt(s, sep, k) && NoOccurrenceIn(s, sep, 0, k) &&
    k + |sep| + |piece| <= |s| &&
    s[k + |sep|..k + |sep| + |piece|] == piece &&
    NoOccurrenceIn(s, sep, k + |sep|, k + |sep| + |piece|) &&
    (k + |sep| + |piece| == |s| || OccursAt(s, sep, k + |sep| + |piece|))
  }

  /** `piece` is element 1 of `s.split(sep)`. */
  ghost predicate IsSecondPiece(s: string, sep: string, piece: string)
  {
    exists k: nat :: IsSecondPieceAt(s, sep, k, piece)
  }

  /** `s.split(sep)[1]`, which is `undefined` when `sep` does not occur. */
  function SecondPiece(s: string, sep: string): (r: Option<string>)
    requires sep != ""
    ensures r.None? <==> !Contains(s, sep)
    ensures r.Some? ==> IsSecondPiece(s, sep, r.value)
  {
    match IndexOf(s, sep, 0)
    case None => None
    case Some(k) =>
      var start := k + |sep|;
      match IndexOf(s, sep, start)
      case None =>
        assert IsSecondPieceAt(s, sep, k, s[start..]);
        Some(s[start..])
      case Some(k2) =>
        assert IsSecondPieceAt(s, sep, k, s[start..k2]);
        Some(s[start..k2])
  }

  /** Element 1 of a split is determined by the string and the separator. */
  lemma SecondPieceUnique(s: string, sep: string, a: string, b: string)
    requires sep != ""
    requires IsSecondPiece(s, sep, a) && IsSecondPiece(s, sep, b)
    ensures a == b
  {
    var ka: nat :| IsSecondPieceAt(s, sep, ka, a);
    var kb: nat :| IsSecondPieceAt(s, sep, kb, b);
    SecondPieceAtUnique(s, sep, ka, kb, a, b);
  }

  lemma SecondPieceAtUnique(s: string, sep: string, ka: nat, kb: nat, a: string, b: string)
    requires sep != ""
    requires IsSecondPieceAt(s, sep, ka, a) && IsSecondPieceAt(s, sep, kb, b)
    ensures a == b
  {
    assert |a| == |b|;
  }

  /** `message.split(sep)[1] || message`: the second piece, unless it is
      missing or empty, in which case the whole message. */
  function ExtractReason(message: string, sep: string): (r: string)
    requires sep != ""
    ensures !Contains(message, sep) ==> r == message
    ensures (r != "" && IsSecondPiece(message, sep, r))
         || (r == message && (!Contains(message, sep) || IsSecondPiece(message, sep, "")))
  {
    match SecondPiece(message, sep)
    case None => message
    case Some(piece) => if piece == "" then message else piece
  }

  /** The buy, toggle and price handlers: `if (message.includes("revert"))
      message = message.split("revert")[1] || message`. The `includes`
      guard changes nothing, since the plain `split(...)[1] || message`
      already falls back to the message. */
  function HandlerReason(message: string): (r: string)
    ensures r == ExtractReason(message, Revert)
    ensures !Contains(message, Revert) ==> r == message
  {
    if Contains(message, Revert) then ExtractReason(message, Revert) else message
  }

  /** A message whose second piece is non-empty yields exactly that piece. */
  lemma ExtractReasonIsPiece(message: string, sep: string, piece: string)
    requires sep != "" && piece != ""
    requires IsSecondPiece(message, sep, piece)
    ensures ExtractReason(message, sep) == piece
  {
    var r := ExtractReason(message, sep);
    var k: nat :| IsSecondPieceAt(message, sep, k, piece);
    ContainsIff(message, sep);
    assert Contains(message, sep);
    if r != "" && IsSecondPiece(message, sep, r) {
      SecondPieceUnique(message, sep, r, piece);
    } else {
      SecondPieceUnique(message, sep, "", piece);
    }
  }

  /** An occurrence of "revert " is an occurrence of "revert". */
  lemma RevertSpaceIsRevert(m: string, j: nat)
    requires OccursAt(m, RevertSpace, j)
    ensures OccursAt(m, Revert, j)
  {
    assert m[j..j + |Revert|] == m[j..j + |RevertSpace|][..|Revert|];
  }

  /** The listing dry run splits on "revert " with the space, the other
      handlers on "revert". When the keyword occurs once, followed by a
      space and the reason, the dry run shows the reason and the other
      handlers show it with the space in front. */
  lemma SeparatorsDiffer(m: string, k: nat)
    requires OccursAt(m, RevertSpace, k) && k + |RevertSpace| < |m|
    requires NoOccurrenceIn(m, Revert, 0, k) && NoOccurrenceIn(m, Revert, k + 1, |m| + 1)
    ensures ExtractReason(m, RevertSpace) == m[k + |RevertSpace|..]
    ensures HandlerReason(m) == " " + ExtractReason(m, RevertSpace)
  {
    var reason := m[k + |RevertSpace|..];
    forall j: nat | OccursAt(m, RevertSpace, j) ensures j == k {
      RevertSpaceIsRevert(m, j);
    }
    assert IsSecondPieceAt(m, RevertSpace, k, reason);
    ExtractReasonIsPiece(m, RevertSpace, reason);
    RevertSpaceIsRevert(m, k);
    assert m[k + |Revert|] == ' ' by {
      assert m[k..k + |RevertSpace|][|Revert|] == RevertSpace[|Revert|];
    }
    assert m[k + |Revert|..] == " " + reason;
    assert IsSecondPieceAt(m, Revert, k, " " + reason);
    ExtractReasonIsPiece(m, Revert, " " + reason);
  }

  /** When the only occurrence of the separator ends the message, the second
      piece is empty, so the whole message is shown. */
  lemma TrailingSeparatorShowsWholeMessage(m: string, sep: string)
    requires sep != "" && |sep| <= |m|
    requires OccursAt(m, sep, |m| - |sep|) && NoOccurrenceIn(m, sep, 0, |m| - |sep|)
    ensures SecondPiece(m, sep) == Some("")
    ensures ExtractReason(m, sep) == m
  {
    assert IsSecondPieceAt(m, sep, |m| - |sep|, "");
    ContainsIff(m, sep);
    SecondPieceUnique(m, sep, SecondPiece(m, sep).value, "");
    var r := ExtractReason(m, sep);
    if r != "" && IsSecondPiece(m, sep, r) {
      SecondPieceUnique(m, sep, r, "");
    }
  }

  /** The handlers' form: a message whose only "revert" is at its very end
      is shown whole. */
  lemma TrailingKeywordShowsWholeMessage(m: string)
    requires |Revert| <= |m|
    requires OccursAt(m, Revert, |m| - |Revert|) && NoOccurrenceIn(m, Revert, 0, |m| - |Revert|)
    ensures HandlerReason(m) == m
  {
    TrailingSeparatorShowsWholeMessage(m, Revert);
  }
}
