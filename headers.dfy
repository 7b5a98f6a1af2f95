/**
 * Request and response headers as the edge runtime presents them: a header
 * name maps to the list of its values.
 */
module Headers {
  import opened Js

  type Headers = map<string, seq<string>>

  /**
   * `getHeader(name)?.[0]`: the first value of a header, or `undefined`
   * when the header is absent or has no values.
   */
  function FirstValue(h: Headers, name: string): (r: Option<string>)
    ensures r.None? <==> name !in h || h[name] == []
    ensures r.Some? ==> name in h && h[name] == [r.value] + h[name][1..]
  {
    if name in h && |h[name]| > 0 then Some(h[name][0]) else None
  }
}
