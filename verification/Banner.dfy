/** The connection banner and feature lists (adb/adb.cpp, adb/transport.cpp, base/strings.cpp). */
module Banner {
  import opened Bytes

  // ---- splitting and joining ----

  function IndexOf(s: string, d: char): (k: nat)
    ensures k <= |s| && (k < |s| <==> d in s) && (k < |s| ==> s[k] == d)
    ensures forall j :: 0 <= j < k ==> s[j] != d
  {
    if s == "" || s[0] == d then 0 else 1 + IndexOf(s[1..], d)
  }

  function Split(s: string, d: char): (r: seq<string>)
    ensures r != []
    decreases |s|
  {
    var k := IndexOf(s, d);
    if k == |s| then [s] else [s[..k]] + Split(s[k + 1..], d)
  }

  function Join(parts: seq<string>, d: char): string {
    if parts == [] then "" else if |parts| == 1 then parts[0] else parts[0] + [d] + Join(parts[1..], d)
  }

  predicate FreeOf(parts: seq<string>, d: char) {
    forall k :: 0 <= k < |parts| ==> d !in parts[k]
  }

  lemma SplitAt(a: string, rest: string, d: char)
    requires d !in a
    ensures Split(a + [d] + rest, d) == [a] + Split(rest, d)
  {
    var s := a + [d] + rest;
    assert s[|a|] == d && forall j :: 0 <= j < |a| ==> s[j] == a[j] && s[j] in a;
    assert IndexOf(s, d) == |a|;
    assert s[..|a|] == a && s[|a| + 1..] == rest;
  }

  /** Splitting undoes joining. */
  lemma {:induction false} SplitJoin(parts: seq<string>, d: char)
    requires parts != [] && FreeOf(parts, d)
    ensures Split(Join(parts, d), d) == parts
  {
    if |parts| == 1 {
      assert parts == [parts[0]];
    } else {
      SplitAt(parts[0], Join(parts[1..], d), d);
      SplitJoin(parts[1..], d);
      assert parts == [parts[0]] + parts[1..];
    }
  }

  /** And joining undoes splitting, so that nothing but delimiters is lost in between. */
  lemma {:induction false} JoinSplit(s: string, d: char)
    ensures Join(Split(s, d), d) == s && FreeOf(Split(s, d), d)
    decreases |s|
  {
    var k := IndexOf(s, d);
    if k < |s| {
      var head, tail := s[..k], s[k + 1..];
      JoinSplit(tail, d);
      var rest := Split(tail, d);
      assert Split(s, d) == [head] + rest && d !in head;
      JoinAhead(head, rest, d);
      assert s == head + [d] + tail;
    }
  }

  lemma JoinAhead(a: string, rest: seq<string>, d: char)
    requires rest != []
    ensures Join([a] + rest, d) == a + [d] + Join(rest, d)
    ensures d !in a && FreeOf(rest, d) ==> FreeOf([a] + rest, d)
  {
    assert ([a] + rest)[1..] == rest;
  }

  /** std::string::find_first_of, with the length of the string for npos. */
  method FindFirstOf(s: string, d: char, base: nat) returns (found: nat)
    requires base <= |s|
    ensures base <= found <= |s| && (found < |s| ==> s[found] == d) && forall j :: base <= j < found ==> s[j] != d
  {
    found := base;
    while found < |s| && s[found] != d
      invariant base <= found <= |s| && forall j :: base <= j < found ==> s[j] != d
    {
      found := found + 1;
    }
  }

  /** Parts each followed by the delimiter. */
  function Ended(parts: seq<string>, d: char): string {
    if parts == [] then "" else Ended(parts[..|parts| - 1], d) + parts[|parts| - 1] + [d]
  }

  lemma EndedMore(parts: seq<string>, last: string, d: char)
    ensures Ended(parts + [last], d) == Ended(parts, d) + last + [d]
  {
    assert (parts + [last])[..|parts|] == parts;
  }

  lemma {:induction false} JoinEnded(parts: seq<string>, last: string, d: char)
    ensures Join(parts + [last], d) == Ended(parts, d) + last
    decreases |parts|
  {
    if parts == [] {
      assert parts + [last] == [last] && Ended(parts, d) + last == last;
    } else {
      var init, prev := parts[..|parts| - 1], parts[|parts| - 1];
      assert parts == init + [prev];
      JoinEnded(init, prev + [d] + last, d);
      JoinMerged(init, prev, last, d);
      Joined(Ended(init, d), prev + [d], last);
      Joined(Ended(init, d), prev, [d]);
    }
  }

  lemma {:induction false} JoinMerged(init: seq<string>, a: string, b: string, d: char)
    ensures Join(init + [a] + [b], d) == Join(init + [a + [d] + b], d)
  {
    if init == [] {
      var two, one := [a, b], [a + [d] + b];
      assert init + [a] + [b] == two && init + [a + [d] + b] == one && two[1..] == [b];
    } else {
      var x, y := init + [a] + [b], init + [a + [d] + b];
      assert x[1..] == init[1..] + [a] + [b] && y[1..] == init[1..] + [a + [d] + b];
      JoinMerged(init[1..], a, b, d);
    }
  }

  method SplitString(s: string, d: char) returns (result: seq<string>)
    ensures result == Split(s, d)
  {
    result := [];
    var base := 0;
    while true
      invariant base <= |s| && Ended(result, d) == s[..base] && FreeOf(result, d)
      decreases |s| - base
    {
      var found := FindFirstOf(s, d, base);
      var piece := s[base..found];
      if found == |s| {
        JoinEnded(result, piece, d);
        assert s[..base] + piece == s;
        result := result + [piece];
        SplitJoin(result, d);
        return;
      }
      EndedMore(result, piece, d);
      assert s[..base] + piece + [d] == s[..found + 1];
      result := result + [piece];
      base := found + 1;
    }
  }

  // ---- features ----

  function StringToFeatureSet(s: string): set<string> {
    if s == "" then {} else set f | f in Split(s, ',')
  }

  /** The names of a set in some order. */
  ghost predicate Lists(names: seq<string>, features: set<string>) {
    forall f :: f in names <==> f in features
  }

  /** In whatever order the set is written, it reads back. */
  lemma FeaturesRoundTrip(names: seq<string>, features: set<string>)
    requires Lists(names, features) && FreeOf(names, ',') && "" !in features
    ensures StringToFeatureSet(Join(names, ',')) == features
  {
    if names != [] {
      SplitJoin(names, ',');
      assert names[0] in features;
      assert Join(names, ',') != "";
    }
  }

  // ---- banners ----

  datatype Kind = Bootloader | Device | Recovery | Sideload | Host

  datatype Transport = Transport(product: string, model: string, device: string, features: set<string>, state: Kind)

  function KindOf(s: string): Kind {
    if s == "bootloader" then Bootloader
    else if s == "device" then Device
    else if s == "recovery" then Recovery
    else if s == "sideload" then Sideload
    else Host
  }

  /** The four kinds of device are told by their names; anything else is a host. */
  lemma KindsNamed(s: string)
    ensures KindOf("bootloader") == Bootloader && KindOf("device") == Device
    ensures KindOf("recovery") == Recovery && KindOf("sideload") == Sideload
    ensures KindOf(s) == Host <==> s !in {"bootloader", "device", "recovery", "sideload"}
  {
    var b, d, r := "bootloader", "device", "recovery";
    assert |b| == 10 && |d| == 6 && |r| == 8 && |"sideload"| == 8 && r[0] != "sideload"[0];
  }

  const NAME := "ro.product.name"
  const MODEL := "ro.product.model"
  const DEVICE := "ro.product.device"
  const FEATURES := "features"

  function SetProperty(t: Transport, key: string, value: string): Transport {
    if key == NAME then t.(product := value)
    else if key == MODEL then t.(model := value)
    else if key == DEVICE then t.(device := value)
    else if key == FEATURES then t.(features := StringToFeatureSet(value))
    else t
  }

  function ReadProperty(t: Transport, prop: string): Transport {
    if prop == "" then t
    else
      var kv := Split(prop, '=');
      if |kv| != 2 then t else SetProperty(t, kv[0], kv[1])
  }

  function ReadProperties(t: Transport, props: seq<string>): Transport
    decreases |props|
  {
    if props == [] then t else ReadProperties(ReadProperty(t, props[0]), props[1..])
  }

  function Parse(banner: string, t: Transport): Transport {
    var pieces := Split(banner, ':');
    var clean := t.(features := {});
    var filled := if |pieces| > 2 then ReadProperties(clean, Split(pieces[2], ';')) else clean;
    filled.(state := KindOf(pieces[0]))
  }

  function Property(key: string, value: string): string {
    key + "=" + value
  }

  function Properties(name: string, model: string, device: string, features: seq<string>): seq<string> {
    [Property(NAME, name), Property(MODEL, model), Property(DEVICE, device), Property(FEATURES, Join(features, ','))]
  }

  /** get_connection_string of a device. */
  function ConnectionString(kind: string, props: seq<string>): string {
    kind + "::" + Join(props, ';')
  }

  predicate Plain(s: string) {
    ':' !in s && ';' !in s && '=' !in s
  }

  lemma ReadOne(t: Transport, key: string, value: string)
    requires Plain(key) && '=' !in value
    ensures ReadProperty(t, Property(key, value)) == SetProperty(t, key, value)
  {
    assert Property(key, value) == key + ['='] + value;
    SplitAt(key, value, '=');
  }

  /** A property is taken if and only if there is no '=' in its value; otherwise it keeps what it was. */
  lemma PropertyTakenIff(t: Transport, key: string, value: string)
    requires Plain(key)
    ensures ReadProperty(t, Property(key, value)) == if '=' in value then t else SetProperty(t, key, value)
  {
    if '=' in value {
      assert Property(key, value) == key + ['='] + value;
      SplitAt(key, value, '=');
      assert |Split(value, '=')| >= 2;
    } else {
      ReadOne(t, key, value);
    }
  }

  lemma KeysPlain()
    ensures Plain(NAME) && Plain(MODEL) && Plain(DEVICE) && Plain(FEATURES)
    ensures NAME != MODEL && NAME != DEVICE && NAME != FEATURES && MODEL != DEVICE && MODEL != FEATURES
            && DEVICE != FEATURES
  {
    assert |NAME| == 15 && |MODEL| == 16 && |DEVICE| == 17 && |FEATURES| == 8;
  }

  lemma {:induction false} JoinPlain(parts: seq<string>, d: char, c: char)
    requires c != d && FreeOf(parts, c)
    ensures c !in Join(parts, d)
  {
    if |parts| > 1 {
      JoinPlain(parts[1..], d, c);
    }
  }

  lemma FourProperties(t: Transport, a: string, b: string, c: string, d: string)
    ensures ReadProperties(t, [a, b, c, d]) == ReadProperty(ReadProperty(ReadProperty(ReadProperty(t, a), b), c), d)
  {
    var ps, qs, rs, ss := [a, b, c, d], [b, c, d], [c, d], [d];
    assert ps[1..] == qs && qs[1..] == rs && rs[1..] == ss && ss[1..] == [];
    var t1 := ReadProperty(t, a);
    var t2 := ReadProperty(t1, b);
    assert ReadProperties(t, ps) == ReadProperties(t1, qs) == ReadProperties(t2, rs)
           == ReadProperties(ReadProperty(t2, c), ss);
  }

  /**
   Parsing the banner a device generates restores product, model, device, the exact set of features
   and the kind, whatever the transport held before.
   */
  lemma BannerRoundTrip(kind: string, name: string, model: string, device: string, names: seq<string>,
                        features: set<string>, t: Transport)
    requires ':' !in kind && Plain(name) && Plain(model) && Plain(device)
    requires Lists(names, features) && "" !in features
    requires forall f :: f in features ==> Plain(f) && ',' !in f
    ensures Parse(ConnectionString(kind, Properties(name, model, device, names)), t)
         == Transport(name, model, device, features, KindOf(kind))
  {
    var props, list := Properties(name, model, device, names), Join(names, ',');
    assert forall k :: 0 <= k < |names| ==> names[k] in features;
    ListPlain(names);
    PropertiesPlain(name, model, device, list);
    JoinPlain(props, ';', ':');
    SplitJoin(props, ';');
    ThreePieces(kind, Join(props, ';'));
    FeaturesRoundTrip(names, features);
    FillsTransport(t.(features := {}), name, model, device, list);
  }

  // ---- what a banner can set ----

  /** Every value is what it was before, or free of delimiters. */
  predicate SetPlain(r: Transport, t: Transport) {
    && (r.product == t.product || Plain(r.product))
    && (r.model == t.model || Plain(r.model))
    && (r.device == t.device || Plain(r.device))
  }

  lemma ReadPropertyPlain(t: Transport, prop: string)
    requires ':' !in prop && ';' !in prop
    ensures SetPlain(ReadProperty(t, prop), t)
  {
    var kv := Split(prop, '=');
    JoinSplit(prop, '=');
    if |kv| == 2 {
      assert kv == [kv[0], kv[1]] && kv[1..] == [kv[1]];
      assert prop == kv[0] + ['='] + kv[1];
      assert forall c :: c in kv[1] ==> c in prop;
    }
  }

  lemma {:induction false} ReadPropertiesPlain(t: Transport, props: seq<string>)
    requires FreeOf(props, ':') && FreeOf(props, ';')
    ensures SetPlain(ReadProperties(t, props), t)
    decreases |props|
  {
    if props != [] {
      ReadPropertyPlain(t, props[0]);
      ReadPropertiesPlain(ReadProperty(t, props[0]), props[1..]);
    }
  }

  lemma {:induction false} PartsWithin(parts: seq<string>, d: char, c: char)
    requires c !in Join(parts, d)
    ensures FreeOf(parts, c)
  {
    if |parts| > 1 {
      var rest := Join(parts[1..], d);
      assert Join(parts, d) == parts[0] + [d] + rest;
      assert forall x :: x in rest ==> x in Join(parts, d);
      PartsWithin(parts[1..], d, c);
      assert forall k :: 1 <= k < |parts| ==> parts[k] == parts[1..][k - 1];
    }
  }

  /** Whatever the banner, a value it sets holds no delimiter. */
  lemma ParsedPlain(banner: string, t: Transport)
    ensures SetPlain(Parse(banner, t), t)
  {
    var pieces := Split(banner, ':');
    JoinSplit(banner, ':');
    if |pieces| > 2 {
      JoinSplit(pieces[2], ';');
      PartsWithin(Split(pieces[2], ';'), ';', ':');
      ReadPropertiesPlain(t.(features := {}), Split(pieces[2], ';'));
    }
  }

  /**
   A banner restores values the transport does not hold already if and only if they are free of the
   delimiters; and when the other two are, this holds of each one by itself.
   */
  lemma BannerRestoresIff(kind: string, name: string, model: string, device: string, names: seq<string>,
                          features: set<string>, t: Transport)
    requires ':' !in kind && Lists(names, features) && "" !in features
    requires forall f :: f in features ==> Plain(f) && ',' !in f
    ensures var r := Parse(ConnectionString(kind, Properties(name, model, device, names)), t);
            && (t.product != name && t.model != model && t.device != device ==>
                  (r.product == name && r.model == model && r.device == device <==>
                     Plain(name) && Plain(model) && Plain(device)))
            && (t.product != name && Plain(model) && Plain(device) ==> (r.product == name <==> Plain(name)))
            && (t.model != model && Plain(name) && Plain(device) ==> (r.model == model <==> Plain(model)))
            && (t.device != device && Plain(name) && Plain(model) ==> (r.device == device <==> Plain(device)))
  {
    ParsedPlain(ConnectionString(kind, Properties(name, model, device, names)), t);
    if Plain(name) && Plain(model) && Plain(device) {
      BannerRoundTrip(kind, name, model, device, names, features, t);
    }
  }

  /** Banners of products called "a=b", "a;b" and "a:b", none of which is restored. */
  lemma DelimitersDropProduct(t: Transport)
    requires t.product !in {"a=b", "a;b", "a:b"}
    ensures forall name :: name in {"a=b", "a;b", "a:b"} ==>
              Parse(ConnectionString("device", Properties(name, "m", "d", [])), t).product != name
  {
    forall name | name in {"a=b", "a;b", "a:b"}
      ensures Parse(ConnectionString("device", Properties(name, "m", "d", [])), t).product != name
    {
      assert name[1] in {'=', ';', ':'};
      BannerRestoresIff("device", name, "m", "d", [], {}, t);
    }
  }

  lemma ListPlain(names: seq<string>)
    requires forall k :: 0 <= k < |names| ==> Plain(names[k])
    ensures Plain(Join(names, ','))
  {
    JoinPlain(names, ',', ':');
    JoinPlain(names, ',', ';');
    JoinPlain(names, ',', '=');
  }

  lemma PropertiesPlain(name: string, model: string, device: string, list: string)
    requires Plain(name) && Plain(model) && Plain(device) && Plain(list)
    ensures var props := [Property(NAME, name), Property(MODEL, model), Property(DEVICE, device),
                          Property(FEATURES, list)];
            FreeOf(props, ':') && FreeOf(props, ';')
  {
    KeysPlain();
    PropertyPlain(NAME, name);
    PropertyPlain(MODEL, model);
    PropertyPlain(DEVICE, device);
    PropertyPlain(FEATURES, list);
  }

  lemma PropertyPlain(key: string, value: string)
    requires Plain(key) && Plain(value)
    ensures ':' !in Property(key, value) && ';' !in Property(key, value)
  {
  }

  lemma ThreePieces(kind: string, props: string)
    requires ':' !in kind && ':' !in props
    ensures Split(kind + "::" + props, ':') == [kind, "", props]
  {
    assert kind + "::" + props == kind + [':'] + ("" + [':'] + props);
    SplitAt(kind, "" + [':'] + props, ':');
    SplitAt("", props, ':');
    assert IndexOf(props, ':') == |props|;
  }

  lemma FillsTransport(t: Transport, name: string, model: string, device: string, list: string)
    requires Plain(name) && Plain(model) && Plain(device) && Plain(list)
    ensures ReadProperties(t,
                           [Property(NAME, name), Property(MODEL, model), Property(DEVICE, device),
                            Property(FEATURES, list)])
         == t.(product := name, model := model, device := device, features := StringToFeatureSet(list))
  {
    KeysPlain();
    FourProperties(t, Property(NAME, name), Property(MODEL, model), Property(DEVICE, device), Property(FEATURES, list));
    ReadOne(t, NAME, name);
    var t1 := t.(product := name);
    ReadOne(t1, MODEL, model);
    var t2 := t1.(model := model);
    ReadOne(t2, DEVICE, device);
    ReadOne(t2.(device := device), FEATURES, list);
  }

  /** get_connection_string: the list is filled property by property. */
  method GetConnectionString(kind: string, values: seq<string>, names: seq<string>) returns (s: string)
    requires |values| == 3
    ensures s == ConnectionString(kind, Properties(values[0], values[1], values[2], names))
  {
    var keys, props, i := [NAME, MODEL, DEVICE], [], 0;
    while i < 3
      invariant i <= 3 && |props| == i && forall k :: 0 <= k < i ==> props[k] == Property(keys[k], values[k])
    {
      props := props + [Property(keys[i], values[i])];
      i := i + 1;
    }
    props := props + [Property(FEATURES, Join(names, ','))];
    assert props == Properties(values[0], values[1], values[2], names);
    s := kind + "::" + Join(props, ';');
  }

  class AdbTransport {
    var product: string
    var model: string
    var device: string
    var features: set<string>
    var state: Kind

    function Value(): Transport
      reads this
    {
      Transport(product, model, device, features, state)
    }

    method SetFeatures(s: string)
      modifies this`features
      ensures features == StringToFeatureSet(s)
    {
      if s == "" {
        features := {};
      } else {
        var names := SplitString(s, ',');
        features := set f | f in names;
      }
    }

    method Overwrite(key: string, value: string)
      modifies this
      ensures Value() == SetProperty(old(Value()), key, value)
    {
      if key == NAME {
        product := value;
      } else if key == MODEL {
        model := value;
      } else if key == DEVICE {
        device := value;
      } else if key == FEATURES {
        SetFeatures(value);
      }
    }

    /** The loop over the properties. */
    method ReadAll(props: seq<string>)
      modifies this
      ensures Value() == ReadProperties(old(Value()), props)
    {
      var i := 0;
      assert props[0..] == props;
      while i < |props|
        invariant i <= |props| && ReadProperties(Value(), props[i..]) == ReadProperties(old(Value()), props)
      {
        assert props[i..][1..] == props[i + 1..];
        if props[i] != "" {
          var kv := SplitString(props[i], '=');
          if |kv| == 2 {
            Overwrite(kv[0], kv[1]);
          }
        }
        i := i + 1;
      }
    }

    /** parse_banner. */
    method ParseBanner(banner: string)
      modifies this
      ensures Value() == Parse(banner, old(Value()))
    {
      var pieces := SplitString(banner, ':');
      SetFeatures("");
      if |pieces| > 2 {
        var props := SplitString(pieces[2], ';');
        ReadAll(props);
      }
      state := KindOf(pieces[0]);
    }
  }
}
