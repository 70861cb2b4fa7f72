/** Agent ids and states as they appear on disk (src/agent_registry.rs). */
module AgentIds {
  import opened Text
  import opened Decimal

  /** One more than the largest number a valid id can carry. */
  const ID_LIMIT: nat := 10_000_000_000_000_000_000

  /** `a{n}` */
  function AgentId(n: nat): string { "a" + Dec(n) }

  /** The number of a well-formed id: `a`, then 1 to 19 digits without a leading zero. */
  function ValidAgentId(id: string): Option<nat> {
    if id == "" || id[0] != 'a' then None else
      var rest := id[1..];
      if rest == "" || |rest| > 19 || !AllDigits(rest) then None
      else if |rest| > 1 && rest[0] == '0' then None
      else ParseUnsigned(rest, 0x1_0000_0000_0000_0000)
  }

  lemma LimitIsPow10()
    ensures Pow10(19) == ID_LIMIT
  {
    assert Pow10(10) == 10_000_000_000;
    assert Pow10(13) == 10_000_000_000_000;
    assert Pow10(16) == 10_000_000_000_000_000;
  }

  /** A minted id is valid, with the same number, exactly below the limit. */
  lemma MintedIsValid(n: nat)
    ensures n < ID_LIMIT ==> ValidAgentId(AgentId(n)) == Some(n)
    ensures n >= ID_LIMIT ==> ValidAgentId(AgentId(n)) == None
  {
    hide Pow10, Dec, ParseUnsigned;
    LimitIsPow10();
    DecLength(n, 19);
    assert AgentId(n)[1..] == Dec(n);
    if n < ID_LIMIT { ParseOfDec(n, 0x1_0000_0000_0000_0000); }
  }

  /** Every valid id is the one minted for its number: a 19-digit number always fits 64 bits. */
  lemma ValidIsMinted(id: string)
    ensures ValidAgentId(id).Some? ==> id == AgentId(ValidAgentId(id).value) && ValidAgentId(id).value < ID_LIMIT
  {
    if ValidAgentId(id).Some? {
      var rest := id[1..];
      assert rest[0] != '+' by { assert IsDigit(rest[0]); }
      DecOfValue(rest);
      LimitIsPow10();
      DecLength(Value(rest), 19);
      assert id == "a" + rest;
    }
  }

  /** No well-formed numeral is turned down for its size. */
  lemma DigitsFit(rest: string)
    requires 0 < |rest| <= 19 && AllDigits(rest) && (|rest| > 1 ==> rest[0] != '0')
    ensures ValidAgentId("a" + rest) == Some(Value(rest))
  {
    DecOfValue(rest);
    LimitIsPow10();
    DecLength(Value(rest), 19);
    MintedIsValid(Value(rest));
  }

  // ---------- states ----------

  datatype AgentState = Queued | Running | Completed | LimitReached | Failed | Stopped | Interrupted

  predicate IsTerminal(s: AgentState) { !s.Queued? && !s.Running? }

  function AsStr(s: AgentState): string {
    match s
    case Queued => "queued"
    case Running => "running"
    case Completed => "done"
    case LimitReached => "limit_reached"
    case Failed => "failed"
    case Stopped => "stopped"
    case Interrupted => "interrupted"
  }

  function FromDiskStr(s: string): Option<AgentState> {
    if s == "queued" then Some(Queued)
    else if s == "running" then Some(Running)
    else if s == "done" then Some(Completed)
    else if s == "limit_reached" then Some(LimitReached)
    else if s == "failed" then Some(Failed)
    else if s == "stopped" then Some(Stopped)
    else if s == "interrupted" then Some(Interrupted)
    else None
  }

  /** Reading a state token back gives exactly the state written. */
  lemma StateTokens(s: AgentState, token: string)
    ensures FromDiskStr(token) == Some(s) <==> token == AsStr(s)
  {
  }
}
