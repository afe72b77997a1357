/** The origin gate in front of every route: `corsOptions.origin` in Backend/server.js. */
module Cors {
  import opened Wrappers

  /** The fixed allow-list of browser origins. */
  const ALLOWED_ORIGINS: seq<string> := [
    "http://localhost:3000",
    "https://dhll-xnuy.onrender.com",
    "https://dhll-1.onrender.com"
  ]

  /** The message of the error handed to the CORS callback on a denial. */
  const NOT_ALLOWED := "Not allowed by CORS"

  datatype Decision = Allow | Deny(message: string)

  /** `Array.prototype.includes` on a list of strings: a front-to-back scan with strict equality.
      It finds `x` exactly when `x` is, character for character, an element of the list. */
  function Includes(list: seq<string>, x: string): (b: bool)
    ensures b <==> x in list
  {
    if list == [] then false
    else
      assert list == [list[0]] + list[1..];
      list[0] == x || Includes(list[1..], x)
  }

  /** The origin callback: a falsy origin (none sent, or empty) is let through; any other
      origin only if the allow-list holds it. A denial carries the callback's error. */
  function Decide(origin: Option<string>, allowed: seq<string>): (d: Decision)
    ensures !Truthy(origin) ==> d == Allow
    ensures Truthy(origin) ==> (d == Allow <==> origin.value in allowed)
    ensures d.Deny? ==> d == Deny(NOT_ALLOWED)
  {
    if !Truthy(origin) then Allow
    else if Includes(allowed, origin.value) then Allow else Deny(NOT_ALLOWED)
  }

  /** The deployed gate: the three listed origins pass, and a near miss (another port, a trailing
      slash, a different letter case, a sub-domain) does not. */
  lemma DeployedGate()
    ensures Decide(None, ALLOWED_ORIGINS) == Allow
    ensures Decide(Some("http://localhost:3000"), ALLOWED_ORIGINS) == Allow
    ensures Decide(Some("https://dhll-xnuy.onrender.com"), ALLOWED_ORIGINS) == Allow
    ensures Decide(Some("https://dhll-1.onrender.com"), ALLOWED_ORIGINS) == Allow
    ensures Decide(Some("http://localhost:3001"), ALLOWED_ORIGINS) == Deny(NOT_ALLOWED)
    ensures Decide(Some("https://dhll-1.onrender.com/"), ALLOWED_ORIGINS) == Deny(NOT_ALLOWED)
    ensures Decide(Some("HTTP://LOCALHOST:3000"), ALLOWED_ORIGINS) == Deny(NOT_ALLOWED)
    ensures Decide(Some("https://evil.dhll-1.onrender.com"), ALLOWED_ORIGINS) == Deny(NOT_ALLOWED)
  {
  }
}
