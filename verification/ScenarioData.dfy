/** The stored form of scenarios. */
module ScenarioData {
  import opened Basics

  /** The controllable settings a scenario stores for one fan; `None` marks a field that was not captured. */
  datatype Settings = Settings(
    power: Option<bool>, speed: Option<int>, manualSpeed: Option<int>, operationMode: Option<int>,
    boostActive: Option<bool>, humiditySensor: Option<int>, humidityThreshold: Option<int>)

  datatype FanSettings = FanSettings(deviceId: string, settings: Settings)

  datatype Scenario = Scenario(name: string, fans: seq<FanSettings>)

  function Names(ss: seq<Scenario>): (r: seq<string>)
    ensures |r| == |ss|
    ensures forall i :: 0 <= i < |ss| ==> r[i] == ss[i].name
  {
    seq(|ss|, i requires 0 <= i < |ss| => ss[i].name)
  }
}
