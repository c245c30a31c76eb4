/** Event types, their Redis channels and the keys under which demand is counted. */
module EventRegistry {
  import opened Collections
  import opened Text

  datatype EventType =
    SystemPowerplayUpdated | FactionPresenceChanged | FactionStateChanged | FactionControlThreatChanged

  function Name(t: EventType): string {
    match t
    case SystemPowerplayUpdated => "systemPowerplayUpdated"
    case FactionPresenceChanged => "factionPresenceChanged"
    case FactionStateChanged => "factionStateChanged"
    case FactionControlThreatChanged => "factionControlThreatChanged"
  }

  /** The channel a publisher builds for a routing key. */
  function ChannelOf(t: EventType, routingKey: string): string {
    match t
    case SystemPowerplayUpdated => "events:systemPowerplayUpdated:power:" + routingKey
    case _ => "events:" + Name(t) + ":faction:" + routingKey
  }

  /** The channels on the wire. */
  lemma ChannelTexts(routingKey: string)
    ensures ChannelOf(SystemPowerplayUpdated, routingKey) == "events:systemPowerplayUpdated:power:" + routingKey
    ensures ChannelOf(FactionPresenceChanged, routingKey) == "events:factionPresenceChanged:faction:" + routingKey
    ensures ChannelOf(FactionStateChanged, routingKey) == "events:factionStateChanged:faction:" + routingKey
    ensures ChannelOf(FactionControlThreatChanged, routingKey)
         == "events:factionControlThreatChanged:faction:" + routingKey
  {
    PresenceTemplate();
    StateTemplate();
    ThreatTemplate();
  }

  // ---------------------------------------------------------------- reading a channel

  function Prefix(t: EventType): string {
    match t
    case SystemPowerplayUpdated => "events:systemPowerplayUpdated:power:"
    case FactionPresenceChanged => "events:factionPresenceChanged:faction:"
    case FactionStateChanged => "events:factionStateChanged:faction:"
    case FactionControlThreatChanged => "events:factionControlThreatChanged:faction:"
  }

  const SPECS := [SystemPowerplayUpdated, FactionPresenceChanged, FactionStateChanged, FactionControlThreatChanged]

  function ParseRoutingKey(t: EventType, channel: string): Option<string> {
    if !(Prefix(t) <= channel) then None
    else
      var routingKey := channel[|Prefix(t)|..];
      if |routingKey| > 0 then Some(routingKey) else None
  }

  datatype Match = Match(eventType: EventType, routingKey: string)

  /** The first entry of the table whose prefix fits. */
  function FirstMatch(specs: seq<EventType>, channel: string): Option<Match> {
    if specs == [] then None
    else
      match ParseRoutingKey(specs[0], channel)
      case None => FirstMatch(specs[1..], channel)
      case Some(routingKey) => Some(Match(specs[0], routingKey))
  }

  function FindByChannel(channel: string): Option<Match> { FirstMatch(SPECS, channel) }

  lemma ChannelHasPrefix(t: EventType, routingKey: string)
    ensures ChannelOf(t, routingKey) == Prefix(t) + routingKey
  {
    if t != SystemPowerplayUpdated {
      PrefixFollowsTheTemplate(t);
      assert "events:" + Name(t) + ":faction:" + routingKey == Prefix(t) + routingKey;
    }
  }

  lemma PrefixFollowsTheTemplate(t: EventType)
    requires t != SystemPowerplayUpdated
    ensures "events:" + Name(t) + ":faction:" == Prefix(t)
  {
    match t
    case FactionPresenceChanged => PresenceTemplate();
    case FactionStateChanged => StateTemplate();
    case FactionControlThreatChanged => ThreatTemplate();
  }

  lemma PresenceTemplate()
    ensures "events:" + "factionPresenceChanged" + ":faction:" == "events:factionPresenceChanged:faction:"
  {
  }

  lemma StateTemplate()
    ensures "events:" + "factionStateChanged" + ":faction:" == "events:factionStateChanged:faction:"
  {
  }

  lemma ThreatTemplate()
    ensures "events:" + "factionControlThreatChanged" + ":faction:" == "events:factionControlThreatChanged:faction:"
  {
  }

  /** No channel starts with the prefixes of two event types: they differ in the 8th or the 15th character. */
  lemma OnlyOnePrefixFits(t: EventType, u: EventType, channel: string)
    requires Prefix(t) <= channel && Prefix(u) <= channel
    ensures t == u
  {
    TellingCharacters(t);
    TellingCharacters(u);
    assert Prefix(t)[7] == channel[7] == Prefix(u)[7];
    assert Prefix(t)[14] == channel[14] == Prefix(u)[14];
  }

  lemma TellingCharacters(t: EventType)
    ensures |Prefix(t)| > 14
    ensures (Prefix(t)[7], Prefix(t)[14]) ==
              match t
              case SystemPowerplayUpdated => ('s', 'o')
              case FactionPresenceChanged => ('f', 'P')
              case FactionStateChanged => ('f', 'S')
              case FactionControlThreatChanged => ('f', 'C')
  {
  }

  lemma FirstMatchIsTheOnlyOne(specs: seq<EventType>, channel: string)
    ensures FirstMatch(specs, channel).Some? ==>
              FirstMatch(specs, channel).value.eventType in specs
              && ParseRoutingKey(FirstMatch(specs, channel).value.eventType, channel) ==
                   Some(FirstMatch(specs, channel).value.routingKey)
    ensures forall t | t in specs && ParseRoutingKey(t, channel).Some? ::
              FirstMatch(specs, channel) == Some(Match(t, ParseRoutingKey(t, channel).value))
  {
    if specs != [] {
      FirstMatchIsTheOnlyOne(specs[1..], channel);
      forall t | t in specs && ParseRoutingKey(t, channel).Some?
        ensures FirstMatch(specs, channel) == Some(Match(t, ParseRoutingKey(t, channel).value))
      {
        if ParseRoutingKey(specs[0], channel).Some? {
          OnlyOnePrefixFits(t, specs[0], channel);
        } else {
          assert t in specs[1..];
        }
      }
    }
  }

  /** Decoding a channel inverts building it, exactly for the nonempty routing keys. */
  lemma ChannelRoundTrip(channel: string, t: EventType, routingKey: string)
    ensures FindByChannel(channel) == Some(Match(t, routingKey)) <==>
            channel == ChannelOf(t, routingKey) && routingKey != ""
  {
    FirstMatchIsTheOnlyOne(SPECS, channel);
    ChannelHasPrefix(t, routingKey);
    EveryTypeListed(t);
    ParsedExactly(t, channel, routingKey);
  }

  lemma EveryTypeListed(t: EventType)
    ensures t in SPECS
  {
    assert SPECS[0] == SystemPowerplayUpdated && SPECS[1] == FactionPresenceChanged;
    assert SPECS[2] == FactionStateChanged && SPECS[3] == FactionControlThreatChanged;
  }

  lemma ParsedExactly(t: EventType, channel: string, routingKey: string)
    ensures ParseRoutingKey(t, channel) == Some(routingKey) <==> channel == Prefix(t) + routingKey && routingKey != ""
  {
    if channel == Prefix(t) + routingKey {
      assert channel[|Prefix(t)|..] == routingKey;
    }
  }

  // ---------------------------------------------------------------- demand keys

  function DemandKey(t: EventType, routingKey: string): string { Name(t) + ":" + routingKey }

  function ParseDemandKey(key: string): (string, string) {
    var separator := IndexOf(key, ':');
    if separator == -1 then (if key == "" then "" else key[..|key| - 1], key)
    else (key[..separator], key[separator + 1..])
  }

  lemma FirstColon(name: string, rest: string)
    requires ':' !in name
    ensures ParseDemandKey(name + ":" + rest) == (name, rest)
  {
    var key := name + ":" + rest;
    assert key[|name|] == ':' && forall j | 0 <= j < |name| :: key[j] == name[j];
    assert key[..|name|] == name && key[|name| + 1..] == rest;
  }

  /** A demand key gives back its event type and routing key, whatever the routing key contains. */
  lemma DemandKeyRoundTrip(t: EventType, routingKey: string)
    ensures ParseDemandKey(DemandKey(t, routingKey)) == (Name(t), routingKey)
  {
    FirstColon(Name(t), routingKey);
  }

  lemma NameInjective(t: EventType, u: EventType)
    requires Name(t) == Name(u)
    ensures t == u
  {
    assert Name(t)[0] == Name(u)[0] && Name(t)[7] == Name(u)[7];
  }

  /** Demand keys and channels name the same thing: two of the one are equal exactly when the two of the other are. */
  lemma SameKeySameChannel(t: EventType, a: string, u: EventType, b: string)
    requires a != "" && b != ""
    ensures DemandKey(t, a) == DemandKey(u, b) <==> ChannelOf(t, a) == ChannelOf(u, b)
  {
    ChannelRoundTrip(ChannelOf(t, a), t, a);
    ChannelRoundTrip(ChannelOf(u, b), u, b);
    DemandKeyRoundTrip(t, a);
    DemandKeyRoundTrip(u, b);
    if DemandKey(t, a) == DemandKey(u, b) {
      NameInjective(t, u);
    }
  }
}
