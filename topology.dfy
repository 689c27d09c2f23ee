/**
  Validation of the socket (NUMA node) layout before one hart array is
  built per socket. The NUMA queries the board code makes for socket `i`
  (are its hart ids contiguous, its first hart id, its hart count) are
  given as a `SocketInfo` per socket, the socket count as their number.

  The board exits when there are more sockets than hart-array slots and,
  socket by socket in increasing order, on discontiguous hart ids, then a
  negative first hart id, then a negative hart count; every socket before
  the failing one has already been built.
 */
module Topology {
  import opened NutshellDefs

  datatype SocketInfo = SocketInfo(hartidsContiguous: bool, firstHartid: int, hartCount: int)

  datatype CpuError =
    | TooManySockets
    | DiscontiguousHartids(socket: nat)
    | NoHartidBase(socket: nat)
    | NoHartCount(socket: nat)

  datatype Option<T> = None | Some(value: T)

  /** The CPU model the machine was configured with; its word width and
      its Zicsr extension are what the reset vector needs. */
  datatype CpuType = CpuType(name: string, is32: bool, zicsr: bool)

  /** One hart-array slot of the board state. */
  datatype HartArray =
    | Unrealized
    | Realized(cpuType: CpuType, hartidBase: int, numHarts: int)

  /** The three per-socket checks pass. */
  predicate SocketOk(info: SocketInfo)
  {
    info.hartidsContiguous && info.firstHartid >= 0 && info.hartCount >= 0
  }

  /** The error socket `i` exits with, checked in the board code's order. */
  function SocketCheck(info: SocketInfo, i: nat): (r: Option<CpuError>)
    ensures r == None <==> SocketOk(info)
  {
    if !info.hartidsContiguous then Some(DiscontiguousHartids(i))
    else if info.firstHartid < 0 then Some(NoHartidBase(i))
    else if info.hartCount < 0 then Some(NoHartCount(i))
    else None
  }

  /** The first socket at or after `from` that fails a check, or the
      socket count when none does. */
  function FirstFailing(sockets: seq<SocketInfo>, from: nat): (r: nat)
    requires from <= |sockets|
    ensures from <= r <= |sockets|
    ensures forall j :: from <= j < r ==> SocketOk(sockets[j])
    ensures r < |sockets| ==> !SocketOk(sockets[r])
    decreases |sockets| - from
  {
    if from == |sockets| then from
    else if !SocketOk(sockets[from]) then from
    else FirstFailing(sockets, from + 1)
  }

  /** `None` when the layout is accepted, otherwise the error the board
      exits with. */
  function CpuCreateError(sockets: seq<SocketInfo>): (r: Option<CpuError>)
    ensures r == Some(TooManySockets) <==> |sockets| > NUTSHELL_SOCKETS_MAX
    ensures r == None <==>
      |sockets| <= NUTSHELL_SOCKETS_MAX && forall j :: 0 <= j < |sockets| ==> SocketOk(sockets[j])
  {
    if |sockets| > NUTSHELL_SOCKETS_MAX then Some(TooManySockets)
    else
      var k := FirstFailing(sockets, 0);
      if k < |sockets| then SocketCheck(sockets[k], k) else None
  }

  /** The number of hart arrays built before the board exits or finishes. */
  function RealizedCount(sockets: seq<SocketInfo>): (n: nat)
    ensures n <= |sockets| && n <= NUTSHELL_SOCKETS_MAX
    ensures forall j :: 0 <= j < n ==> SocketOk(sockets[j])
    ensures |sockets| <= NUTSHELL_SOCKETS_MAX && n < |sockets| ==> !SocketOk(sockets[n])
  {
    if |sockets| > NUTSHELL_SOCKETS_MAX then 0 else FirstFailing(sockets, 0)
  }

  /** The hart array built for socket `i`. */
  function HartArrayFor(cpu: CpuType, info: SocketInfo): HartArray
  {
    Realized(cpu, info.firstHartid, info.hartCount)
  }

  /** More sockets than slots exits before any socket is built. */
  lemma TooManySocketsExitsFirst(sockets: seq<SocketInfo>)
    requires |sockets| > NUTSHELL_SOCKETS_MAX
    ensures CpuCreateError(sockets) == Some(TooManySockets) && RealizedCount(sockets) == 0
  {
  }

  /** The layout is accepted exactly when it fits the slots and every
      socket passes all three checks; then every socket is built. */
  lemma AcceptedIff(sockets: seq<SocketInfo>)
    ensures CpuCreateError(sockets) == None
      <==> |sockets| <= NUTSHELL_SOCKETS_MAX && forall j :: 0 <= j < |sockets| ==> SocketOk(sockets[j])
    ensures CpuCreateError(sockets) == None ==> RealizedCount(sockets) == |sockets|
  {
    if |sockets| <= NUTSHELL_SOCKETS_MAX {
      var k := FirstFailing(sockets, 0);
      if k < |sockets| {
        assert SocketCheck(sockets[k], k) != None;
      }
    }
  }

  /** When socket `k` is the first to fail, the board exits with the error
      of the first of its checks that fails, after building sockets 0..k-1. */
  lemma FirstFailureReported(sockets: seq<SocketInfo>, k: nat)
    requires |sockets| <= NUTSHELL_SOCKETS_MAX && k < |sockets|
    requires forall j :: 0 <= j < k ==> SocketOk(sockets[j])
    requires !SocketOk(sockets[k])
    ensures CpuCreateError(sockets) == SocketCheck(sockets[k], k) != None
    ensures RealizedCount(sockets) == k
  {
  }

  /** The checks are made in order: discontiguous hart ids first, then a
      missing first hart id, then a missing hart count. */
  lemma CheckOrder(info: SocketInfo, i: nat)
    ensures !info.hartidsContiguous ==> SocketCheck(info, i) == Some(DiscontiguousHartids(i))
    ensures info.hartidsContiguous && info.firstHartid < 0 ==> SocketCheck(info, i) == Some(NoHartidBase(i))
    ensures info.hartidsContiguous && info.firstHartid >= 0 && info.hartCount < 0 ==>
      SocketCheck(info, i) == Some(NoHartCount(i))
  {
  }

  /** Every built socket passed its checks, the error names the first
      socket not built, and no slot at or beyond the slot count is written. */
  lemma RealizedPrefix(sockets: seq<SocketInfo>)
    ensures RealizedCount(sockets) <= |sockets| && RealizedCount(sockets) <= NUTSHELL_SOCKETS_MAX
    ensures forall j :: 0 <= j < RealizedCount(sockets) ==> SocketOk(sockets[j])
    ensures match CpuCreateError(sockets)
      case None => RealizedCount(sockets) == |sockets|
      case Some(TooManySockets) => RealizedCount(sockets) == 0
      case Some(DiscontiguousHartids(s)) => s == RealizedCount(sockets)
      case Some(NoHartidBase(s)) => s == RealizedCount(sockets)
      case Some(NoHartCount(s)) => s == RealizedCount(sockets)
  {
  }

  /** A socket with no harts is not rejected. */
  lemma ZeroHartsAccepted(first: int)
    requires first >= 0
    ensures CpuCreateError([SocketInfo(true, first, 0)]) == None
  {
  }

  /** Exactly as many sockets as slots is accepted. */
  lemma FullSocketsAccepted(sockets: seq<SocketInfo>)
    requires |sockets| == NUTSHELL_SOCKETS_MAX
    requires forall j :: 0 <= j < |sockets| ==> SocketOk(sockets[j])
    ensures CpuCreateError(sockets) == None && RealizedCount(sockets) == NUTSHELL_SOCKETS_MAX
  {
    AcceptedIff(sockets);
  }

  /** When the NUMA layer answers that socket 0's hart ids are not
      contiguous (a socket holding harts 0, 1 and 3, say), the board exits
      on socket 0 before building anything, whatever the other answers. */
  lemma GapRejected(first: int, count: int)
    ensures CpuCreateError([SocketInfo(false, first, count)]) == Some(DiscontiguousHartids(0))
    ensures RealizedCount([SocketInfo(false, first, count)]) == 0
  {
  }
}
