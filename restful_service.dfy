/** The RESTful transport as the S3 service sees it: a `get` call that
    returns one response per call. It is modelled as a scripted service
    that hands out a fixed list of responses one by one and then keeps
    returning one repeated response, as a mock with a chain of one-shot
    answers followed by a repeated answer does. */
module RestfulService {
  import opened S3Types

  /** The responses the transport gives: `once[k]` to the k-th call while
      the list lasts, `repeatedly` to every later call. */
  datatype Script = Script(once: seq<Response>, repeatedly: Response) {
    function At(k: nat): (r: Response)
    {
      if k < |once| then once[k] else repeatedly
    }
  }

  /** A script whose one-shot answers are exactly `rs` and whose later
      calls get the default (failing) response: what a mock with only
      one-shot answers returns once they are used up. */
  function OnlyOnce(rs: seq<Response>): (s: Script)
  {
    Script(rs, DefaultResponse)
  }

  /** A script that gives the same response to every call. */
  function Always(r: Response): (s: Script)
    ensures forall k: nat :: s.At(k) == r
  {
    Script([], r)
  }

  class MockRestfulService {
    const script: Script
    /** How many times `get` has been called. */
    var calls: nat

    constructor (script: Script)
      ensures this.script == script && calls == 0
    {
      this.script := script;
      calls := 0;
    }

    /** One request: the URL, headers and query parameters are not looked
        at; the answer is the next response of the script. */
    method Get(url: string, headers: map<string, string>, params: map<string, string>)
      returns (r: Response)
      modifies this
      ensures calls == old(calls) + 1
      ensures r == script.At(old(calls))
    {
      r := script.At(calls);
      calls := calls + 1;
    }
  }
}
