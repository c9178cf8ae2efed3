/**
 * The payload carried by the bot's inline buttons: "<command> <n1>,<n2>"
 * for an entry button and "/cancel <n>" for the Cancel button, and
 * parseCallbackQueryData, which strips the command once, trims, splits on
 * commas and parses every token as a uint64, returning every number
 * together with the error of the last token that failed.
 */
module Callback {
  import opened Wrappers
  import opened Text
  import opened Strconv

  const CmdDelete: string := "/del"
  const CmdOtp: string := "/otp"
  const CmdHelp: string := "/help"
  const CmdCancel: string := "/cancel"

  /** fmt.Sprintf("%s %d,%d", command, totpID, cancelableID): the payload of an entry button. */
  function EntryPayload(command: string, totpId: nat, cacheId: nat): string {
    command + " " + (Decimal(totpId) + "," + Decimal(cacheId))
  }

  /** fmt.Sprintf("%s %d", "/cancel", cancelableID): the payload of the Cancel button. */
  function CancelPayload(cacheId: nat): string {
    CmdCancel + " " + Decimal(cacheId)
  }

  /** The tokens parseCallbackQueryData parses: never none, since Split always yields a piece. */
  function Tokens(command: string, data: string): (r: seq<string>)
    ensures |r| == Count(TrimSpace(ReplaceFirst(data, command)), ',') + 1
  {
    Split(TrimSpace(ReplaceFirst(data, command)), ',')
  }

  /** The number parsed from every token, in order; a failed token contributes what ParseUint returned. */
  function Numbers(tokens: seq<string>): (r: seq<nat>)
    ensures |r| == |tokens|
    ensures forall i :: 0 <= i < |tokens| ==> r[i] == ParseUint(tokens[i]).value
    decreases |tokens|
  {
    if tokens == [] then [] else Numbers(tokens[..|tokens| - 1]) + [ParseUint(tokens[|tokens| - 1]).value]
  }

  /** The error left in err after the loop: that of the last token that failed, none when every token parsed. */
  function LastError(tokens: seq<string>): (r: Option<NumError>)
    ensures r.None? <==> forall i :: 0 <= i < |tokens| ==> ParseUint(tokens[i]).err.None?
    ensures r.Some? ==> exists i :: (0 <= i < |tokens| && ParseUint(tokens[i]).err == r
      && forall j :: i < j < |tokens| ==> ParseUint(tokens[j]).err.None?)
    decreases |tokens|
  {
    if tokens == [] then
      None
    else
      var init := tokens[..|tokens| - 1];
      var last := ParseUint(tokens[|tokens| - 1]).err;
      var r := if last.Some? then last else LastError(init);
      assert forall i :: 0 <= i < |init| ==> init[i] == tokens[i];
      r
  }

  datatype Decoded = Decoded(ids: seq<nat>, err: Option<NumError>)

  /** What parseCallbackQueryData(command, data) returns. */
  function Decode(command: string, data: string): (d: Decoded)
  {
    var tokens := Tokens(command, data);
    Decoded(Numbers(tokens), LastError(tokens))
  }

  /** parseCallbackQueryData: one number per comma-separated token, so the result is never empty. */
  method ParseCallbackQueryData(command: string, data: string) returns (result: seq<nat>, err: Option<NumError>)
    ensures Decoded(result, err) == Decode(command, data)
    ensures |result| == Count(TrimSpace(ReplaceFirst(data, command)), ',') + 1
    ensures forall i :: 0 <= i < |result| ==> result[i] <= MaxUint64
  {
    result := [];
    err := None;
    var tokens := Split(TrimSpace(ReplaceFirst(data, command)), ',');
    for i := 0 to |tokens|
      invariant result == Numbers(tokens[..i])
      invariant err == LastError(tokens[..i])
    {
      var number := ParseUint(tokens[i]);
      NextToken(tokens, i);
      result := result + [number.value];
      if number.err.Some? {
        err := number.err;
      }
    }
    assert tokens[..|tokens|] == tokens;
  }

  /** Parsing one more token appends its number and, when it fails, makes its error the last one. */
  lemma NextToken(tokens: seq<string>, i: nat)
    requires i < |tokens|
    ensures Numbers(tokens[..i + 1]) == Numbers(tokens[..i]) + [ParseUint(tokens[i]).value]
    ensures LastError(tokens[..i + 1]) == if ParseUint(tokens[i]).err.Some? then ParseUint(tokens[i]).err else LastError(tokens[..i])
  {
    assert tokens[..i + 1][..i] == tokens[..i];
  }

  /** The payload shape "<command> <rest>": the command and the single space are what Replace and TrimSpace remove. */
  lemma TokensAfterCommand(command: string, rest: string, data: string)
    requires command != [] && Trimmed(rest)
    requires data == command + " " + rest
    ensures Tokens(command, data) == Split(rest, ',')
  {
    assert data == command + (" " + rest);
    assert HasPrefix(data, command);
    assert ReplaceFirst(data, command) == " " + rest;
    assert AllSpace(" ");
    TrimSpaceAround(" ", rest, []);
    assert " " + rest + [] == " " + rest;
  }

  /** Two decimals joined by a comma split back into the two decimals. */
  lemma SplitDecimals(a: nat, b: nat)
    ensures Trimmed(Decimal(a) + "," + Decimal(b))
    ensures Split(Decimal(a) + "," + Decimal(b), ',') == [Decimal(a), Decimal(b)]
  {
    var x, y := Decimal(a), Decimal(b);
    assert ',' !in x && ',' !in y;
    SplitFirst(x, y, ',');
    SplitWithout(y, ',');
    var rest := x + "," + y;
    assert rest[0] == x[0] && rest[|rest| - 1] == y[|y| - 1];
  }

  /** An entry button's payload yields exactly the two decimal tokens. */
  lemma EntryTokens(command: string, totpId: nat, cacheId: nat)
    requires command != []
    ensures Tokens(command, EntryPayload(command, totpId, cacheId)) == [Decimal(totpId), Decimal(cacheId)]
  {
    var rest := Decimal(totpId) + "," + Decimal(cacheId);
    SplitDecimals(totpId, cacheId);
    TokensAfterCommand(command, rest, EntryPayload(command, totpId, cacheId));
  }

  /** Round trip: an entry button's payload decodes, with its own command, to [totpID, cancelableID] and no error. */
  lemma DecodeEntryPayload(command: string, totpId: nat, cacheId: nat)
    requires command != []
    requires totpId <= MaxUint64 && cacheId <= MaxUint64
    ensures Decode(command, EntryPayload(command, totpId, cacheId)) == Decoded([totpId, cacheId], None)
  {
    EntryTokens(command, totpId, cacheId);
    ParseUintDecimal(totpId);
    ParseUintDecimal(cacheId);
    TwoTokens(Decimal(totpId), Decimal(cacheId));
  }

  /** Decoding a single token. */
  lemma OneToken(a: string)
    ensures Numbers([a]) == [ParseUint(a).value]
    ensures LastError([a]) == ParseUint(a).err
  {
    assert [a][..0] == [];
  }

  /** Decoding two tokens: the second token's error wins over the first's. */
  lemma TwoTokens(a: string, b: string)
    ensures Numbers([a, b]) == [ParseUint(a).value, ParseUint(b).value]
    ensures LastError([a, b]) == if ParseUint(b).err.Some? then ParseUint(b).err else ParseUint(a).err
  {
    assert [a, b][..1] == [a];
    OneToken(a);
  }

  /** A command followed by one number decodes to that number alone. */
  lemma DecodeSingleNumber(command: string, n: nat)
    requires command != [] && n <= MaxUint64
    ensures Decode(command, command + " " + Decimal(n)) == Decoded([n], None)
  {
    var a := Decimal(n);
    assert ',' !in a;
    SplitWithout(a, ',');
    TokensAfterCommand(command, a, command + " " + a);
    ParseUintDecimal(n);
    OneToken(a);
  }

  /** A command followed by one token that is not a number decodes to [0] and that token's syntax error. */
  lemma DecodeNonNumber(command: string, bad: string)
    requires command != []
    requires bad == [] || !IsDigit(bad[0])
    requires ',' !in bad && Trimmed(bad)
    ensures Decode(command, command + " " + bad) == Decoded([0], Some(NumError(bad, ErrSyntax)))
  {
    SplitWithout(bad, ',');
    TokensAfterCommand(command, bad, command + " " + bad);
    OneToken(bad);
  }

  /** Round trip: the Cancel button's payload decodes, with "/cancel", to [cancelableID] and no error. */
  lemma DecodeCancelPayload(cacheId: nat)
    requires cacheId <= MaxUint64
    ensures Decode(CmdCancel, CancelPayload(cacheId)) == Decoded([cacheId], None)
  {
    DecodeSingleNumber(CmdCancel, cacheId);
  }

  /** A decimal, a comma and a separator-free trimmed token split into those two tokens. */
  lemma PartialTokens(command: string, totpId: nat, bad: string)
    requires command != []
    requires ',' !in bad && Trimmed(bad)
    ensures Tokens(command, command + " " + (Decimal(totpId) + "," + bad)) == [Decimal(totpId), bad]
  {
    var a := Decimal(totpId);
    var rest := a + "," + bad;
    assert ',' !in a;
    assert Trimmed(rest) by {
      if bad != [] {
        assert rest[|rest| - 1] == bad[|bad| - 1];
      }
    }
    SplitFirst(a, bad, ',');
    SplitWithout(bad, ',');
    TokensAfterCommand(command, rest, command + " " + rest);
  }

  /**
   * Best-effort parsing: a token that is not a plain decimal sets the
   * error, but every other token's number stays in its position and the
   * failed token contributes 0.
   */
  lemma DecodeKeepsPartialResults(command: string, totpId: nat, bad: string)
    requires command != [] && totpId <= MaxUint64
    requires bad == [] || !IsDigit(bad[0])
    requires ',' !in bad && Trimmed(bad)
    ensures Decode(command, command + " " + (Decimal(totpId) + "," + bad))
         == Decoded([totpId, 0], Some(NumError(bad, ErrSyntax)))
  {
    PartialTokens(command, totpId, bad);
    ParseUintDecimal(totpId);
    TwoTokens(Decimal(totpId), bad);
  }
}
