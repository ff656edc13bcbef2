/** internal/config/config.go: the decoded configuration. */
module Config {
  import opened Text

  type uint8 = n: int | 0 <= n < 0x100

  datatype Config = Config(MQTT: MQTT, Server: Server, Log: Log, SourceList: seq<Source>)

  datatype MQTT = MQTT(Broker: string, ClientID: string, Username: string, Password: string,
                       QoS: Option<uint8>, CleanSession: Option<bool>)

  datatype Server = Server(Listen: string)

  datatype Log = Log(Level: string)

  datatype Source = Source(
    Name: string, Broker: string, Subscribe: string, QoS: Option<uint8>,
    LastUpdatedMetric: string, Labels: map<string, Label>, Rules: seq<Rule>, Path: string)
  {
    function EffectiveQoS(global: uint8): uint8 {
      if QoS.Some? then QoS.value else global
    }

    function EffectiveBroker(global: string): string {
      if Broker != "" then Broker else global
    }
  }

  datatype Rule = Rule(
    Match: string, MetricName: string, Type: string, Help: string, Value: Value,
    LastUpdatedMetric: string, Labels: map<string, Label>)

  /** `Map` is `None` for Go's nil map, which differs from an empty one. */
  datatype Label = Label(From: string, Value: string, Path: string, Map: Option<map<string, string>>)

  datatype Value = Value(From: string, Path: string, Regex: string, Scale: Option<real>,
                         Map: Option<map<string, real>>)

  const HEARTBEAT_HELP := "Unix time of the last message this rule matched"
  const TYPE_GAUGE := "gauge"
  const TYPE_COUNTER := "counter"
  const FROM_JSON := "json"
  const FROM_RAW := "raw"
  const FROM_STATIC := "static"
}
