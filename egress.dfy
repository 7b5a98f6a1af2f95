/**
 * The egress hook (`onClientResponse`): mark every outgoing response with
 * one static header.
 */
module Egress {
  import opened Headers

  const MarkerHeader: string := "X-EdgeWorker-LaunchDarkly"
  const MarkerValue: string := "enabled"

  /**
   * The headers after the marker is set: the marker header holds exactly
   * the value `enabled`, and every other header keeps its values.
   */
  function Annotated(h: Headers): (r: Headers)
    ensures r.Keys == h.Keys + {MarkerHeader}
    ensures r[MarkerHeader] == [MarkerValue]
    ensures forall name | name in h && name != MarkerHeader :: r[name] == h[name]
  {
    h[MarkerHeader := [MarkerValue]]
  }

  /** Marking a response twice is marking it once. */
  lemma AnnotatedIdempotent(h: Headers)
    ensures Annotated(Annotated(h)) == Annotated(h)
  {
  }

  /** The outgoing response, whose header map the runtime lets the hook change in place. */
  class EgressResponse {
    var headers: Headers

    constructor (headers: Headers)
      ensures this.headers == headers
    {
      this.headers := headers;
    }

    /** `setHeader(name, value)`: the header now holds that one value, replacing any before. */
    method SetHeader(name: string, value: string)
      modifies this
      ensures headers == old(headers)[name := [value]]
    {
      headers := headers[name := [value]];
    }
  }

  /** `onClientResponse`: set the marker header and change nothing else. */
  method OnClientResponse(response: EgressResponse)
    modifies response
    ensures response.headers == Annotated(old(response.headers))
  {
    response.SetHeader(MarkerHeader, MarkerValue);
  }
}
