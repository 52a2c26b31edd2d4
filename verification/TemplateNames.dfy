/** Template files are named <key>.<channel>.<part>.tmpl; the files that share a
    key and a channel are a family. */
module TemplateNames {
  import opened Wrappers
  import opened NotificationDomain
  import opened GoStrings

  const SUFFIX := ".tmpl"
  const SUBJECT := "subject"
  const TEXT := "text"
  const HTML := "html"

  // -------------------------------------------------------------------- names

  datatype FamilyId = FamilyId(key: string, channel: string)

  datatype Parsed = Parsed(id: FamilyId, part: string)

  datatype NameError = BadShape | UnknownChannel

  function Shape(base: string): Option<Parsed> {
    var partAt := LastIndex(base, '.');
    if partAt <= 0 then None
    else
      var rest := base[..partAt];
      var channelAt := LastIndex(rest, '.');
      if channelAt <= 0 then None
      else Some(Parsed(FamilyId(rest[..channelAt], rest[channelAt + 1..]), base[partAt + 1..]))
  }

  /** Read from the right: part, channel, and whatever is left is the key. */
  function ParseName(name: string): Result<Parsed, NameError> {
    var p := Shape(TrimSuffix(name, SUFFIX));
    if p.None? then Err(BadShape)
    else if !ValidChannel(p.value.id.channel) then Err(UnknownChannel)
    else Ok(p.value)
  }

  function FileName(p: Parsed): string {
    p.id.key + "." + p.id.channel + "." + p.part + SUFFIX
  }

  predicate WellFormed(p: Parsed) {
    p.id.key != [] && ValidChannel(p.id.channel) && '.' !in p.part
  }

  /** A directory listing filtered by the suffix, in any order. */
  predicate Listing(names: seq<string>) {
    && (forall n :: n in names ==> HasSuffix(n, SUFFIX))
    && forall i, j :: 0 <= i < j < |names| ==> names[i] != names[j]
  }

  lemma ChannelsHaveNoDots(c: Channel)
    requires ValidChannel(c)
    ensures '.' !in c
  {
  }

  /** Naming a part and reading the name back, for exactly the parts that can be
      named: a key that is not empty (dots allowed), a known channel, and a part
      without a dot. */
  lemma NameRoundTrip(p: Parsed)
    ensures ParseName(FileName(p)) == Ok(p) <==> WellFormed(p)
  {
    var rest := p.id.key + "." + p.id.channel;
    var base := rest + "." + p.part;
    assert FileName(p) == base + SUFFIX;
    assert FileName(p)[|base|..] == SUFFIX && FileName(p)[..|base|] == base;
    assert TrimSuffix(FileName(p), SUFFIX) == base;
    if WellFormed(p) {
      SplitAtLast(rest, '.', p.part);
      ChannelsHaveNoDots(p.id.channel);
      SplitAtLast(p.id.key, '.', p.id.channel);
    } else if ParseName(FileName(p)) == Ok(p) {
      NameIsRebuilt(FileName(p), p);
      assert false;
    }
  }

  /** The same in full: <key>.<channel>.<part>.tmpl. */
  lemma NameInFull(key: string, channel: string, part: string)
    ensures ParseName(key + "." + channel + "." + part + ".tmpl") == Ok(Parsed(FamilyId(key, channel), part)) <==>
              && key != ""
              && (channel == "email" || channel == "inapp" || channel == "webhook")
              && '.' !in part
  {
    NameRoundTrip(Parsed(FamilyId(key, channel), part));
    assert FileName(Parsed(FamilyId(key, channel), part)) == key + "." + channel + "." + part + ".tmpl";
  }

  /** Every accepted file name is the name of what was read from it. */
  lemma NameIsRebuilt(name: string, p: Parsed)
    requires HasSuffix(name, SUFFIX) && ParseName(name) == Ok(p)
    ensures FileName(p) == name && WellFormed(p)
  {
    var base := TrimSuffix(name, SUFFIX);
    var partAt := LastIndex(base, '.');
    var rest := base[..partAt];
    var channelAt := LastIndex(rest, '.');
    assert name == base + SUFFIX;
    assert base == rest + "." + p.part;
    assert rest == p.id.key + "." + p.id.channel;
    assert forall k :: 0 <= k < |p.part| ==> p.part[k] == base[partAt + 1 + k];
  }

  /** Two files never supply the same part of the same family. */
  lemma SlotsAreNotShared(a: string, b: string)
    requires HasSuffix(a, SUFFIX) && HasSuffix(b, SUFFIX)
    requires ParseName(a).Ok? && ParseName(a) == ParseName(b)
    ensures a == b
  {
    NameIsRebuilt(a, ParseName(a).value);
    NameIsRebuilt(b, ParseName(b).value);
  }
}
