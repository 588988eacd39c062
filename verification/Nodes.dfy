/** How a node connects (internal/ir): its transport and its security. */
module Nodes {
  import opened Prelude

  datatype Transport = NativeTCP | WebSocket(path: string, host: Option<string>)

  datatype Security =
    | NoSecurity
    | TLS(serverName: string, verify: Option<bool>, alpn: seq<string>, fingerprint: Option<string>)
    | Reality(serverName: string, alpn: seq<string>, realityFingerprint: string, publicKey: string, shortId: string)
}
