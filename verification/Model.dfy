/** Domain types shared by the engine (crates/radin-core/src/model.rs).
    Measurements are reals; clocks are milliseconds as naturals. */
module Model {
  import opened Common

  datatype TransportKind = Quic | Udp | TcpTls | Http2 | WebSocketTls | Direct

  const FALLBACK_ORDER := [Quic, Udp, TcpTls, Http2, WebSocketTls, Direct]

  function Name(t: TransportKind): string {
    match t
    case Quic => "quic"
    case Udp => "udp"
    case TcpTls => "tcp_tls"
    case Http2 => "http2"
    case WebSocketTls => "websocket_tls"
    case Direct => "direct"
  }

  datatype MeasuredSource = Real | Synthetic

  // A measured duration or rate is not negative.
  type Measure = x: real | x >= 0.0

  datatype Metrics = Metrics(
    latency: Measure, jitter: Measure, loss: real, stability: real, handshake: real, reconnectRate: Measure)

  datatype RouteCandidate = RouteCandidate(
    id: string, endpoint: string, transport: TransportKind, region: string,
    metrics: Metrics, score: Option<real>, source: MeasuredSource)

  datatype EdgeInfo = EdgeInfo(
    id: string, region: string, address: string, supported: seq<TransportKind>, expiresAt: nat)
}
