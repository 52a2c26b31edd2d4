/** Building the template families from a directory, and rendering one of them
    into a message. */
module TemplateRenderer {
  import opened Wrappers
  import opened NotificationDomain
  import opened GoStrings
  import opened TemplateNames
  import opened MessageText

  // ------------------------------------------------------------------ families

  /** text/template and html/template, and the file system they are read from. */
  datatype Engine<!T> = Engine(read: string -> Option<string>,
                               text: (string, string) -> Option<T>,
                               html: (string, string) -> Option<T>)
  {
    /** What one file compiles to, by the part it supplies. */
    function Compiled(name: string, part: string): (r: Option<T>)
      ensures r.Some? ==> read(name).Some? && part in {SUBJECT, TEXT, HTML}
    {
      if read(name).None? then None
      else if part == SUBJECT || part == TEXT then text(name, read(name).value)
      else if part == HTML then html(name, read(name).value)
      else None
    }

    /** A file that can be part of a renderer. */
    predicate Usable(name: string) {
      var p := ParseName(name);
      p.Ok? && Compiled(name, p.value.part).Some?
    }
  }

  /** The contents of a family: html is optional. */
  datatype Parts<T> = Parts(subject: Option<T>, text: Option<T>, html: Option<T>)
  {
    function Filled(part: string, t: Option<T>): Parts<T> {
      if part == SUBJECT then this.(subject := t)
      else if part == TEXT then this.(text := t)
      else if part == HTML then this.(html := t)
      else this
    }
  }

  class Family<T> {
    var subject: Option<T>
    var text: Option<T>
    var html: Option<T>

    constructor ()
      ensures Value() == Parts(None, None, None)
    {
      subject, text, html := None, None, None;
    }

    function Value(): Parts<T>
      reads this
    {
      Parts(subject, text, html)
    }

    /** One file goes to its own slot; an unknown part is an error. */
    method Parse(e: Engine<T>, name: string, part: string, content: string) returns (ok: bool)
      requires e.read(name) == Some(content)
      modifies this
      ensures ok == e.Compiled(name, part).Some?
      ensures Value() == if ok then old(Value()).Filled(part, e.Compiled(name, part)) else old(Value())
      ensures ok <==>
                || ((part == "subject" || part == "text") && e.text(name, content).Some?)
                || (part == "html" && e.html(name, content).Some?)
      ensures subject == if ok && part == "subject" then e.text(name, content) else old(subject)
      ensures text == if ok && part == "text" then e.text(name, content) else old(text)
      ensures html == if ok && part == "html" then e.html(name, content) else old(html)
    {
      var t;
      if part == SUBJECT {
        t := e.text(name, content);
        if t.None? { return false; }
        subject := t;
      } else if part == TEXT {
        t := e.text(name, content);
        if t.None? { return false; }
        text := t;
      } else if part == HTML {
        t := e.html(name, content);
        if t.None? { return false; }
        html := t;
      } else {
        return false;
      }
      return true;
    }

    predicate Complete()
      reads this
    {
      subject.Some? && text.Some?
    }
  }

  /** Some file of the listing belongs to the family. */
  predicate HasFamily(names: seq<string>, id: FamilyId) {
    exists n :: n in names && ParseName(n).Ok? && ParseName(n).value.id == id
  }

  /** What one part of a family is, by the name of its only possible file. */
  function Supplied<T>(e: Engine<T>, names: seq<string>, id: FamilyId, part: string): Option<T> {
    var name := FileName(Parsed(id, part));
    if name in names then e.Compiled(name, part) else None
  }

  function Expected<T>(e: Engine<T>, names: seq<string>, id: FamilyId): Parts<T> {
    Parts(Supplied(e, names, id, SUBJECT), Supplied(e, names, id, TEXT), Supplied(e, names, id, HTML))
  }

  /** A directory builds a renderer exactly when every file in it is a usable
      template and every family it names has its subject and its text. Nothing
      here depends on the order of the listing. */
  ghost predicate Buildable<T>(e: Engine<T>, names: seq<string>) {
    && (forall n :: n in names ==> e.Usable(n))
    && forall id :: HasFamily(names, id) ==>
         FileName(Parsed(id, SUBJECT)) in names && FileName(Parsed(id, TEXT)) in names
  }

  lemma OneMoreName(names: seq<string>, name: string, id: FamilyId)
    requires Listing(names + [name]) && ParseName(name).Ok?
    ensures name !in names && Listing(names)
    ensures HasFamily(names + [name], id) <==> HasFamily(names, id) || id == ParseName(name).value.id
  {
    var all := names + [name];
    assert all[|names|] == name;
    assert forall i :: 0 <= i < |names| ==> all[i] == names[i];
    assert forall n :: n in all <==> n in names || n == name;
  }

  lemma ItsOnlyFile(names: seq<string>, name: string, id: FamilyId, part: string)
    requires Listing(names) && HasFamily(names, id) && HasSuffix(name, SUFFIX) && ParseName(name).Ok?
    requires part in {SUBJECT, TEXT, HTML}
    ensures FileName(Parsed(id, part)) == name <==> ParseName(name).value == Parsed(id, part)
  {
    var slot := Parsed(id, part);
    FamilyIsWellFormed(names, id);
    assert WellFormed(slot) by {
      PartsHaveNoDots(part);
    }
    NameRoundTrip(slot);
    if FileName(slot) != name {
      NameIsRebuilt(name, ParseName(name).value);
    }
  }

  lemma PartsHaveNoDots(part: string)
    requires part in {SUBJECT, TEXT, HTML}
    ensures '.' !in part
  {
  }

  lemma SuppliedByOneMore<T>(e: Engine<T>, names: seq<string>, name: string, id: FamilyId, p: string)
    requires Listing(names + [name]) && ParseName(name).Ok? && HasFamily(names + [name], id)
    ensures Supplied(e, names + [name], id, p)
            == if ParseName(name).value == Parsed(id, p) then e.Compiled(name, p) else Supplied(e, names, id, p)
  {
    var all := names + [name];
    assert forall n :: n in all <==> n in names || n == name;
    assert all[|names|] == name;
    if p in {SUBJECT, TEXT, HTML} {
      ItsOnlyFile(all, name, id, p);
    }
  }

  /** A further file fills one part, until then empty, of one family. */
  lemma OneFileOneSlot<T>(e: Engine<T>, names: seq<string>, name: string, id: FamilyId)
    requires Listing(names + [name]) && ParseName(name).Ok? && HasFamily(names + [name], id)
    ensures var Parsed(at, part) := ParseName(name).value;
            && Supplied(e, names, at, part).None?
            && Expected(e, names + [name], id)
               == if id == at then Expected(e, names, id).Filled(part, e.Compiled(name, part))
                  else Expected(e, names, id)
  {
    OneMoreName(names, name, id);
    NameIsRebuilt(name, ParseName(name).value);
    SuppliedByOneMore(e, names, name, id, SUBJECT);
    SuppliedByOneMore(e, names, name, id, TEXT);
    SuppliedByOneMore(e, names, name, id, HTML);
  }

  lemma NothingWithoutAFamily<T>(e: Engine<T>, names: seq<string>, name: string)
    requires Listing(names + [name]) && ParseName(name).Ok?
    ensures var at := ParseName(name).value.id;
            !HasFamily(names, at) ==> Expected(e, names, at) == Parts(None, None, None)
  {
    var at := ParseName(name).value.id;
    OneMoreName(names, name, at);
    NameIsRebuilt(name, ParseName(name).value);
    forall part | part in {SUBJECT, TEXT, HTML} && FileName(Parsed(at, part)) in names
      ensures HasFamily(names, at)
    {
      PartsHaveNoDots(part);
      NameRoundTrip(Parsed(at, part));
    }
  }

  /** What a listing of one more file expects of a family. */
  ghost predicate Follows<T>(e: Engine<T>, names: seq<string>, name: string, at: FamilyId, part: string, id: FamilyId) {
    && (HasFamily(names + [name], id) <==> HasFamily(names, id) || id == at)
    && (HasFamily(names + [name], id) ==>
          Expected(e, names + [name], id)
          == if id == at then Expected(e, names, id).Filled(part, e.Compiled(name, part))
             else Expected(e, names, id))
    && (id == at && !HasFamily(names, id) ==> Expected(e, names, id) == Parts(None, None, None))
  }

  lemma OneMoreFile<T>(e: Engine<T>, names: seq<string>, name: string, at: FamilyId, part: string)
    requires Listing(names + [name]) && ParseName(name) == Ok(Parsed(at, part))
    ensures forall id :: Follows(e, names, name, at, part, id)
  {
    NothingWithoutAFamily(e, names, name);
    forall id
      ensures Follows(e, names, name, at, part, id)
    {
      OneMoreName(names, name, id);
      if HasFamily(names + [name], id) {
        OneFileOneSlot(e, names, name, id);
      }
    }
  }

  lemma FamilyIsWellFormed(names: seq<string>, id: FamilyId)
    requires Listing(names) && HasFamily(names, id)
    ensures id.key != [] && ValidChannel(id.channel)
  {
    var n :| n in names && ParseName(n).Ok? && ParseName(n).value.id == id;
    NameIsRebuilt(n, ParseName(n).value);
  }

  lemma SuppliedExactlyWhenNamed<T(!new)>(e: Engine<T>, names: seq<string>, id: FamilyId, part: string)
    requires Listing(names) && HasFamily(names, id) && part in {SUBJECT, TEXT, HTML}
    requires forall n :: n in names ==> e.Usable(n)
    ensures Supplied(e, names, id, part).Some? <==> FileName(Parsed(id, part)) in names
  {
    FamilyIsWellFormed(names, id);
    PartsHaveNoDots(part);
    NameRoundTrip(Parsed(id, part));
    if FileName(Parsed(id, part)) in names {
      assert e.Usable(FileName(Parsed(id, part)));
    }
  }

  datatype Message = Message(subject: string, body: string, htmlBody: string)

  datatype RenderError = NoTemplate | Invalid

  /** Every part executes, and the subject does not come out empty. */
  predicate Renders<T, P>(run: (T, P) -> Option<string>, v: Parts<T>, payload: P) {
    && v.subject.Some? && v.text.Some?
    && run(v.subject.value, payload).Some? && OneLine(run(v.subject.value, payload).value) != ""
    && run(v.text.value, payload).Some?
    && (v.html.Some? ==> run(v.html.value, payload).Some?)
  }

  function Rendered<T, P>(run: (T, P) -> Option<string>, v: Parts<T>, payload: P): Message
    requires Renders(run, v, payload)
  {
    Message(OneLine(run(v.subject.value, payload).value),
            TrimSpace(run(v.text.value, payload).value),
            if v.html.None? then "" else TrimSpace(run(v.html.value, payload).value))
  }

  /** A family renders unless a part fails or the subject has no word in it; the
      subject is never empty, has no line break, and has every word of its part. */
  lemma RenderedSubject<T, P>(run: (T, P) -> Option<string>, v: Parts<T>, payload: P)
    requires v.subject.Some? && run(v.subject.value, payload).Some?
    ensures Renders(run, v, payload) <==>
              && !AllSpace(run(v.subject.value, payload).value)
              && v.text.Some? && run(v.text.value, payload).Some?
              && (v.html.Some? ==> run(v.html.value, payload).Some?)
    ensures Renders(run, v, payload) ==>
            && Rendered(run, v, payload).body == TrimSpace(run(v.text.value, payload).value)
            && Rendered(run, v, payload).htmlBody ==
               (if v.html.None? then "" else TrimSpace(run(v.html.value, payload).value))
    ensures Renders(run, v, payload) ==>
            var subject := Rendered(run, v, payload).subject;
            && subject != "" && '\n' !in subject && '\r' !in subject
            && Fields(subject) == Fields(run(v.subject.value, payload).value)
  {
    OneLineKeepsTheWords(run(v.subject.value, payload).value);
  }

  method RenderFamily<T, P>(run: (T, P) -> Option<string>, v: Parts<T>, payload: P)
    returns (r: Result<Message, RenderError>)
    requires v.subject.Some? && v.text.Some?
    ensures r.Ok? <==> Renders(run, v, payload)
    ensures r == if r.Ok? then Ok(Rendered(run, v, payload)) else Err(Invalid)
  {
    var subject := run(v.subject.value, payload);
    if subject.None? { return Err(Invalid); }
    var body := run(v.text.value, payload);
    if body.None? { return Err(Invalid); }
    var msg := Message(OneLine(subject.value), TrimSpace(body.value), "");
    if v.html.Some? {
      var html := run(v.html.value, payload);
      if html.None? { return Err(Invalid); }
      msg := msg.(htmlBody := TrimSpace(html.value));
    }
    if msg.subject == "" {
      return Err(Invalid);
    }
    return Ok(msg);
  }

  class Renderer<T(!new)> {
    var families: map<FamilyId, Family<T>>

    ghost predicate Built(e: Engine<T>, names: seq<string>)
      reads this, families.Values
    {
      && (forall id :: id in families <==> HasFamily(names, id))
      && Separate()
      && forall id :: id in families ==> families[id].Value() == Expected(e, names, id)
    }

    constructor Empty(ghost e: Engine<T>)
      ensures fresh(families.Values) && Built(e, [])
    {
      families := map[];
    }

    predicate Separate()
      reads this
    {
      forall a, b :: a in families && b in families && families[a] == families[b] ==> a == b
    }

    function ValueOf(id: FamilyId): Parts<T>
      reads this, families.Values
    {
      if id in families then families[id].Value() else Parts(None, None, None)
    }

    /** One file goes to its family, which is made on first sight. */
    method Fill(e: Engine<T>, name: string, id: FamilyId, part: string, content: string) returns (ok: bool)
      requires Separate() && e.read(name) == Some(content)
      modifies this, families.Values
      ensures Separate() && families.Keys == old(families.Keys) + {id}
      ensures fresh(families.Values - old(families.Values))
      ensures ok <==> e.Compiled(name, part).Some?
      ensures forall other :: ValueOf(other) ==
                if ok && other == id then old(ValueOf(other)).Filled(part, e.Compiled(name, part))
                else old(ValueOf(other))
    {
      var f;
      if id in families {
        f := families[id];
      } else {
        f := new Family<T>();
        families := families[id := f];
      }
      ok := f.Parse(e, name, part, content);
    }

    /** The loop body of NewFromFS: one more file of the listing. */
    method Add(e: Engine<T>, ghost before: seq<string>, name: string) returns (ok: bool)
      requires Listing(before + [name]) && Built(e, before)
      modifies this, families.Values
      ensures ok <==> e.Usable(name)
      ensures ok ==> Built(e, before + [name])
      ensures fresh(families.Values - old(families.Values))
    {
      var parsed := ParseName(name);
      if parsed.Err? { return false; }
      var content := e.read(name);
      if content.None? { return false; }
      ok := Fill(e, name, parsed.value.id, parsed.value.part, content.value);
      if ok {
        OneMoreFile(e, before, name, parsed.value.id, parsed.value.part);
        forall id
          ensures id in families <==> HasFamily(before + [name], id)
          ensures id in families ==> families[id].Value() == Expected(e, before + [name], id)
        {
          assert Follows(e, before, name, parsed.value.id, parsed.value.part, id);
          assert id in families ==> families[id].Value() == ValueOf(id);
        }
      }
    }

    /** Every family has its subject and its text. */
    method Validate() returns (ok: bool)
      ensures ok <==> forall id :: id in families ==> families[id].Complete()
    {
      var todo := families.Keys;
      while todo != {}
        invariant todo <= families.Keys
        invariant forall id :: id in families && id !in todo ==> families[id].Complete()
        decreases |todo|
      {
        var id :| id in todo;
        if !families[id].Complete() { return false; }
        todo := todo - {id};
      }
      return true;
    }

    /** Runs a family on a payload; `run` is template execution. The order of
        the failures is the order of the parts, and the subject goes out on one
        line or not at all. */
    method Render<P>(run: (T, P) -> Option<string>, key: string, channel: string, payload: P)
      returns (r: Result<Message, RenderError>)
      requires forall id :: id in families ==> families[id].Complete()
      ensures r == Err(NoTemplate) <==> FamilyId(key, channel) !in families
      ensures r.Ok? <==> FamilyId(key, channel) in families && Renders(run, ValueOf(FamilyId(key, channel)), payload)
      ensures r.Ok? ==> r.value == Rendered(run, ValueOf(FamilyId(key, channel)), payload)
    {
      var id := FamilyId(key, channel);
      if id !in families {
        return Err(NoTemplate);
      }
      r := RenderFamily(run, families[id].Value(), payload);
    }

    lemma CompleteExactlyWhenNamed(e: Engine<T>, names: seq<string>)
      requires Built(e, names) && forall n :: n in names ==> e.Usable(n)
      requires Listing(names)
      ensures (forall id :: id in families ==> families[id].Complete()) <==> Buildable(e, names)
    {
      forall id | id in families
        ensures families[id].Complete() <==>
                FileName(Parsed(id, SUBJECT)) in names && FileName(Parsed(id, TEXT)) in names
      {
        SuppliedExactlyWhenNamed(e, names, id, SUBJECT);
        SuppliedExactlyWhenNamed(e, names, id, TEXT);
      }
    }
  }

  /** The listing is any order of the directory's *.tmpl files. */
  method NewFromFS<T(!new)>(e: Engine<T>, names: seq<string>) returns (r: Result<Renderer<T>, string>)
    requires Listing(names)
    ensures r.Ok? <==> Buildable(e, names)
    ensures r.Ok? ==> fresh(r.value) && r.value.Built(e, names)
    ensures r.Ok? ==> forall id :: id in r.value.families ==> r.value.families[id].Complete()
  {
    var out := new Renderer<T>.Empty(e);
    var i := 0;
    while i < |names|
      invariant 0 <= i <= |names| && fresh(out) && fresh(out.families.Values)
      invariant forall n :: n in names[..i] ==> e.Usable(n)
      invariant out.Built(e, names[..i])
    {
      assert names[..i + 1] == names[..i] + [names[i]];
      var ok := out.Add(e, names[..i], names[i]);
      if !ok {
        assert names[i] in names && !e.Usable(names[i]);
        return Err("the file cannot be used as a template");
      }
      i := i + 1;
    }
    assert names[..i] == names;
    out.CompleteExactlyWhenNamed(e, names);
    var complete := out.Validate();
    if !complete {
      return Err("a family is missing a required part");
    }
    return Ok(out);
  }

  /** Where each part comes from, in full: <key>.<channel>.subject.tmpl and
      .text.tmpl through the plain engine, .html.tmpl, if there is one, through
      the one that escapes. */
  lemma PartsInFull<T(!new)>(e: Engine<T>, names: seq<string>, r: Renderer<T>, id: FamilyId)
    requires Listing(names) && Buildable(e, names) && r.Built(e, names) && id in r.families
    ensures var base := id.key + "." + id.channel + ".";
            var f := r.families[id];
            && base + "subject" + ".tmpl" in names && e.read(base + "subject" + ".tmpl").Some?
            && f.subject == e.text(base + "subject" + ".tmpl", e.read(base + "subject" + ".tmpl").value)
            && base + "text" + ".tmpl" in names && e.read(base + "text" + ".tmpl").Some?
            && f.text == e.text(base + "text" + ".tmpl", e.read(base + "text" + ".tmpl").value)
            && (f.html.Some? <==> base + "html" + ".tmpl" in names)
            && (f.html.Some? ==>
                  && e.read(base + "html" + ".tmpl").Some?
                  && f.html == e.html(base + "html" + ".tmpl", e.read(base + "html" + ".tmpl").value))
  {
    SuppliedExactlyWhenNamed(e, names, id, SUBJECT);
    SuppliedExactlyWhenNamed(e, names, id, TEXT);
    SuppliedExactlyWhenNamed(e, names, id, HTML);
    NamedInFull(id, SUBJECT);
    NamedInFull(id, TEXT);
    NamedInFull(id, HTML);
    assert r.families[id].Value() == Expected(e, names, id);
  }

  lemma NamedInFull(id: FamilyId, part: string)
    ensures FileName(Parsed(id, part)) == id.key + "." + id.channel + "." + part + ".tmpl"
  {
  }

  /** Two listings of one directory, in any two orders: both build or neither
      does, and what they build holds the same families with the same parts. */
  lemma OrderDoesNotMatter<T(!new)>(e: Engine<T>, a: seq<string>, b: seq<string>)
    requires forall n :: n in a <==> n in b
    ensures Buildable(e, a) <==> Buildable(e, b)
    ensures forall id :: HasFamily(a, id) <==> HasFamily(b, id)
    ensures forall id :: Expected(e, a, id) == Expected(e, b, id)
  {
    forall id
      ensures HasFamily(a, id) <==> HasFamily(b, id)
    {
    }
  }
}
