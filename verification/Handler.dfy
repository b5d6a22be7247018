/** The loop that serves one connection under a limit on all it may send. */
module Handler {
  import opened Protocol

  /** One limit reader covers the whole connection. */
  const LIMIT: nat := 1024 * 1024

  datatype Arrival = Arrival(request: Request, bytes: nat)

  /** A request that decodes takes at least the two bytes of "{}". */
  type Decodable = a: Arrival | a.bytes >= 2 witness Arrival(Request(VERSION, "", "", ""), 2)

  function Total(input: seq<Decodable>): nat {
    if input == [] then 0 else input[0].bytes + Total(input[1..])
  }

  /** How many requests can be read before the limit cuts one off. */
  function Fitting(input: seq<Decodable>, budget: nat): (n: nat)
    ensures n <= |input|
  {
    if input == [] || input[0].bytes > budget then 0 else 1 + Fitting(input[1..], budget - input[0].bytes)
  }

  lemma {:induction false} FittingIsLargest(input: seq<Decodable>, budget: nat, n: nat)
    requires n <= |input|
    ensures Total(input[..n]) <= budget <==> n <= Fitting(input, budget)
  {
    if n > 0 {
      assert input[..n][1..] == input[1..][..n - 1];
      if input[0].bytes <= budget { FittingIsLargest(input[1..], budget - input[0].bytes, n - 1); }
    }
  }

  lemma {:induction false} FittingIsHalf(input: seq<Decodable>, budget: nat)
    ensures 2 * Fitting(input, budget) <= budget
  {
    if input != [] && input[0].bytes <= budget { FittingIsHalf(input[1..], budget - input[0].bytes); }
  }

  /** `handleConnection`: every response sent tells what the request in its place came
      to; at most 2^19 requests are carried out, and fewer than fit only
      if a response could not be sent. */
  method HandleConnection(input: seq<Decodable>) returns (outcomes: seq<Outcome>, sent: seq<Response>)
    ensures |outcomes| <= Fitting(input, 1048576) && |outcomes| <= 524288
    ensures |sent| == |outcomes| || |sent| + 1 == |outcomes|
    ensures forall n :: 0 <= n < |sent| ==> IsReply(sent[n], input[n].request, outcomes[n])
    ensures |sent| == |outcomes| ==> |outcomes| == Fitting(input, 1048576)
  {
    FittingIsHalf(input, LIMIT);
    outcomes, sent := [], [];
    var remaining: nat := LIMIT;
    while |outcomes| < |input| && input[|outcomes|].bytes <= remaining
      invariant |outcomes| == |sent| <= |input|
      invariant |outcomes| + Fitting(input[|outcomes|..], remaining) == Fitting(input, LIMIT)
      invariant forall n :: 0 <= n < |sent| ==> IsReply(sent[n], input[n].request, outcomes[n])
      decreases |input| - |outcomes|
    {
      var n := |outcomes|;
      assert input[n..][1..] == input[n + 1..];
      remaining := remaining - input[n].bytes;
      var o: Outcome, ok := *, *;
      outcomes := outcomes + [o];
      if !ok { return; }
      DispatchReplies(input[n].request, o, Dispatch(input[n].request, o));
      sent := sent + [Dispatch(input[n].request, o)];
    }
  }
}
