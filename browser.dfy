/** The browser state the client helpers read and write: `localStorage` and the cookie jar. */
module Browser {

  /** A cookie as the jar keeps it: its value, its path and its `max-age` in seconds. */
  datatype Cookie = Cookie(value: string, path: string, maxAgeSeconds: nat)

  class Browser {
    /** `typeof window !== "undefined"`: the code runs in a browser, not during server rendering. */
    const isClient: bool
    var localStorage: map<string, string>
    /** Writing a cookie whose `expires` date has passed removes it from the jar. */
    var cookies: map<string, Cookie>

    /** A fresh page, with empty storage and no cookies. */
    constructor (isClient: bool)
      ensures this.isClient == isClient && localStorage == map[] && cookies == map[]
    {
      this.isClient := isClient;
      localStorage := map[];
      cookies := map[];
    }
  }
}
