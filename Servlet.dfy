/** The parts of the servlet API the plugin touches: a request, read either
    through its headers or through its request-scoped attributes, and the
    HTTP session, a string-keyed store kept across the requests of one login. */
module Servlet {
  import opened JavaLang

  /** `map.get(key)`: null when the key is absent. */
  function Get(m: map<string, string>, key: string): (v: Option<string>)
    ensures v.Some? <==> key in m
    ensures v.Some? ==> v.value == m[key]
  {
    if key in m then Some(m[key]) else None
  }

  /** An HTTP request: its headers and its attributes (where an AJP connector
      puts the variables of the identity provider). */
  datatype Request = Request(headers: map<string, string>, attributes: map<string, string>)

  /** `HttpSession`, holding string attributes. */
  class Session {
    var attributes: map<string, string>

    constructor (attributes: map<string, string>)
      ensures this.attributes == attributes
    {
      this.attributes := attributes;
    }

    /** `session.getAttribute(key)`, cast to String. */
    function GetAttribute(key: string): (v: Option<string>)
      reads this
    {
      Get(attributes, key)
    }

    /** `session.setAttribute(key, value)`. */
    method SetAttribute(key: string, value: string)
      modifies this
      ensures attributes == old(attributes)[key := value]
    {
      attributes := attributes[key := value];
    }
  }
}
