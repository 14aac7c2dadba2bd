/**
 * Role selection at the start of main in ReliableUDP.cpp: the command-line
 * arguments decide whether this process is the Server or the Client and which
 * side sends and which receives.
 *
 * The address test `sscanf(argv[1], "%d.%d.%d.%d", ...)` is not modelled; it
 * is a parameter `scansAsAddress`, true exactly when sscanf returns nonzero
 * (a full or partial match, or EOF).
 */
module Roles {

  datatype Mode = Client | Server

  /** The mode and the four role flags main computes. */
  datatype Roles = Roles(
    mode: Mode,
    serverSending: bool,
    clientSending: bool,
    serverReceiving: bool,
    clientReceiving: bool)

  const SendFlag: string := "-send"

  /**
   * The mode and flags for the argument vector `argv` (argv[0] is the program
   * name, so argc is |argv|).
   */
  function SelectRoles(argv: seq<string>, scansAsAddress: string -> bool): (r: Roles)
    ensures r.serverSending == r.clientReceiving
    ensures r.clientSending == r.serverReceiving
    ensures !(r.serverSending && r.clientSending)
    ensures r.mode == Client <==> |argv| >= 2 && scansAsAddress(argv[1])
  {
    if |argv| >= 2 then
      if scansAsAddress(argv[1]) then
        if |argv| >= 3 && argv[2] == SendFlag then Roles(Client, false, true, true, false)
        else Roles(Client, true, false, false, true)
      else if argv[1] == SendFlag then Roles(Server, true, false, false, true)
      else Roles(Server, false, false, false, false)
    else
      Roles(Server, false, true, true, false)
  }

  /** Whether this process is the sending side. */
  predicate LocalSends(r: Roles)
  {
    if r.mode == Server then r.serverSending else r.clientSending
  }

  /** Whether this process is the receiving side. */
  predicate LocalReceives(r: Roles)
  {
    if r.mode == Server then r.serverReceiving else r.clientReceiving
  }

  /** The sender test of the send loop (ReliableUDP.cpp, server branch). */
  predicate ServerSends(r: Roles)
  {
    r.mode == Server && r.serverSending && !r.clientSending
  }

  /** The sender test of the send loop (ReliableUDP.cpp, client branch). */
  predicate ClientSends(r: Roles)
  {
    r.mode == Client && r.clientSending && !r.serverSending
  }

  /** Whether the user asked this process to send: `-send` in the flag position for its mode. */
  predicate SendRequested(argv: seq<string>, scansAsAddress: string -> bool)
  {
    |argv| >= 2 &&
    if scansAsAddress(argv[1]) then |argv| >= 3 && argv[2] == SendFlag else argv[1] == SendFlag
  }

  /**
   * The four cases of role selection: no arguments gives a receiving Server; an
   * address gives a Client that sends iff `-send` follows; `-send` alone gives a
   * sending Server; anything else a Server with every flag false.
   */
  lemma SelectionCases(argv: seq<string>, scansAsAddress: string -> bool)
    ensures |argv| < 2 ==> SelectRoles(argv, scansAsAddress) == Roles(Server, false, true, true, false)
    ensures |argv| >= 2 && scansAsAddress(argv[1]) ==>
      SelectRoles(argv, scansAsAddress).mode == Client &&
      (SelectRoles(argv, scansAsAddress).clientSending <==> |argv| >= 3 && argv[2] == SendFlag)
    ensures |argv| >= 2 && !scansAsAddress(argv[1]) && argv[1] == SendFlag ==>
      SelectRoles(argv, scansAsAddress) == Roles(Server, true, false, false, true)
    ensures |argv| >= 2 && !scansAsAddress(argv[1]) && argv[1] != SendFlag ==>
      SelectRoles(argv, scansAsAddress) == Roles(Server, false, false, false, false)
  {
  }

  /**
   * The process sends exactly when the user asked it to; it receives exactly
   * when it is a Client without `-send` or a Server started without arguments.
   */
  lemma LocalRoleMatchesRequest(argv: seq<string>, scansAsAddress: string -> bool)
    ensures LocalSends(SelectRoles(argv, scansAsAddress)) <==> SendRequested(argv, scansAsAddress)
    ensures LocalReceives(SelectRoles(argv, scansAsAddress)) <==>
      |argv| < 2 || (scansAsAddress(argv[1]) && !SendRequested(argv, scansAsAddress))
    ensures !(LocalSends(SelectRoles(argv, scansAsAddress)) && LocalReceives(SelectRoles(argv, scansAsAddress)))
  {
  }

  /**
   * For every selected role, the send loop's two sender tests together hold
   * exactly when this process is the sending side.
   */
  lemma SenderTestsMatchLocalSends(argv: seq<string>, scansAsAddress: string -> bool)
    ensures var r := SelectRoles(argv, scansAsAddress);
      (ServerSends(r) || ClientSends(r)) <==> LocalSends(r)
  {
  }
}
