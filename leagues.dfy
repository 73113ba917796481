/**
 * The leagues registry (leagues/person.go, leagues/league.go): people and
 * leagues kept in two maps keyed by id, created on first use, each of their
 * fields published in the state store under "Leagues.Person(<id>).<Field>"
 * or "Leagues.League(<id>).<Field>", and pattern updaters through which a
 * client sets them.
 *
 * The texts published are kept as one map from path to text, `published`:
 * the source writes a person's fields through the value-holder store and a
 * league's through the typed store, and the two are not told apart here.
 */
module Leagues {
  import opened GoBase
  import opened HolderStore
  import opened Pattern
  import opened Utils
  import opened StateUpdater

  // ------------------------------------------------------------------ paths

  datatype PersonField = PersonID | PersonName | LegalName | InsuranceNumber | Number

  datatype LeagueField = LeagueID | LeagueName

  /** The last segment of a person's path for each field. */
  function PersonFieldName(f: PersonField): string
  {
    match f
    case PersonID => "ID"
    case PersonName => "Name"
    case LegalName => "LegalName"
    case InsuranceNumber => "InsuranceNumber"
    case Number => "Number"
  }

  function LeagueFieldName(f: LeagueField): string
  {
    match f
    case LeagueID => "ID"
    case LeagueName => "Name"
  }

  /** A field name is one plain word. */
  predicate Plain(s: string)
  {
    |s| > 0 && forall i :: 0 <= i < |s| ==> s[i] != '(' && s[i] != ')' && s[i] != '.' && s[i] != '*'
  }

  lemma FieldNamesPlain(f: PersonField, g: LeagueField)
    ensures Plain(PersonFieldName(f)) && Plain(LeagueFieldName(g))
  {
  }

  const PersonPrefix := "Leagues.Person"
  const LeaguePrefix := "Leagues.League"

  /** The path of one field of the record `prefix(id)`. */
  function FieldKey(prefix: string, id: string, name: string): string
  {
    prefix + "(" + id + ")" + "." + name
  }

  /** p.stateIDs[...]: base "Leagues.Person(<id>)" and the field's name. */
  function PersonKey(id: string, f: PersonField): string
  {
    FieldKey(PersonPrefix, id, PersonFieldName(f))
  }

  function LeagueKey(id: string, f: LeagueField): string
  {
    FieldKey(LeaguePrefix, id, LeagueFieldName(f))
  }

  /** The pattern the updater of a person's field is registered under. */
  function PersonPattern(f: PersonField): string
  {
    PersonPrefix + Wildcard + ("." + PersonFieldName(f))
  }

  /** The pattern of the league Name updater. */
  function LeagueNamePattern(): string
  {
    LeaguePrefix + Wildcard + ".Name"
  }

  /** Two field paths are the same path only for the same id and field name. */
  lemma {:induction false} FieldKeyInjective(prefix: string, a: string, x: string, b: string, y: string)
    requires Plain(x) && Plain(y)
    requires FieldKey(prefix, a, x) == FieldKey(prefix, b, y)
    ensures a == b && x == y
  {
    var s := FieldKey(prefix, a, x);
    var t := FieldKey(prefix, b, y);
    var n := |prefix| + 1;
    assert s == prefix + "(" + a + ")." + x;
    assert t == prefix + "(" + b + ")." + y;
    assert s[n + |a|] == ')' && t[n + |b|] == ')';
    assert forall i :: n + |a| < i < |s| ==> s[i] != ')' by {
      forall i | n + |a| < i < |s| ensures s[i] != ')' {
        if i == n + |a| + 1 {
          assert s[i] == '.';
        } else {
          assert s[i] == x[i - n - |a| - 2];
        }
      }
    }
    assert forall i :: n + |b| < i < |t| ==> t[i] != ')' by {
      forall i | n + |b| < i < |t| ensures t[i] != ')' {
        if i == n + |b| + 1 {
          assert t[i] == '.';
        } else {
          assert t[i] == y[i - n - |b| - 2];
        }
      }
    }
    assert |b| <= |a|;
    assert |a| <= |b|;
    assert s[n..n + |a|] == a by {
      assert s == (prefix + "(") + a + (")." + x);
    }
    assert t[n..n + |b|] == b by {
      assert t == (prefix + "(") + b + (")." + y);
    }
    assert s[n + |a| + 2..] == x && t[n + |b| + 2..] == y;
  }

  /** No two fields of any two people share a path. */
  lemma PersonKeyInjective(a: string, f: PersonField, b: string, g: PersonField)
    requires PersonKey(a, f) == PersonKey(b, g)
    ensures a == b && f == g
  {
    FieldNamesPlain(f, LeagueID);
    FieldNamesPlain(g, LeagueID);
    FieldKeyInjective(PersonPrefix, a, PersonFieldName(f), b, PersonFieldName(g));
  }

  /** No two fields of any two leagues share a path. */
  lemma LeagueKeyInjective(a: string, f: LeagueField, b: string, g: LeagueField)
    requires LeagueKey(a, f) == LeagueKey(b, g)
    ensures a == b && f == g
  {
    FieldNamesPlain(PersonID, f);
    FieldNamesPlain(PersonID, g);
    FieldKeyInjective(LeaguePrefix, a, LeagueFieldName(f), b, LeagueFieldName(g));
  }

  /**
   * The id the updaters read back from a record's own path is the record's
   * id: a field path holds exactly one group.
   */
  lemma {:induction false} FieldKeyIds(prefix: string, id: string, name: string)
    requires '(' !in prefix && ')' !in id && Plain(name)
    ensures IDs(FieldKey(prefix, id, name)) == [id]
  {
    assert FieldKey(prefix, id, name) == prefix + "(" + id + ")" + ("." + name);
    IDsSegment(prefix, id, "." + name);
    DotWordPlain(name);
    NoParenNoIDs("." + name);
  }

  /**
   * Any path a `prefix(*)...` pattern accepts has an id, the text up to the
   * first `)` after the prefix: the lookup of the first id cannot fail.
   */
  lemma {:induction false} AcceptedKeyHasId(prefix: string, tail: string, k: string)
    requires '(' !in prefix
    requires NewPatternMatcher(prefix + Wildcard + tail).Accepts(k)
    ensures |IDs(k)| > 0
  {
    var p := prefix + Wildcard + tail;
    var open := |prefix| + 1;
    FirstWildcardAfter(prefix, tail);
    assert NewPatternMatcher(p) == Complex(p);
    WildcardStep(p, k);
    assert p[..open] == prefix + "(";
    OpensAfter(prefix, k);
    FirstGroupAt(k, |prefix|);
  }

  /** A path that starts with a `(`-free prefix and `(` has its first `(` right there. */
  lemma OpensAfter(prefix: string, k: string)
    requires '(' !in prefix && |prefix| < |k| && k[..|prefix| + 1] == prefix + "("
    ensures IndexChar(k, '(') == |prefix|
  {
    assert k[|prefix|] == (prefix + "(")[|prefix|];
    forall i | 0 <= i < |prefix| ensures k[i] != '(' {
      assert k[i] == (prefix + "(")[i] == prefix[i];
    }
  }

  lemma PersonKeyAcceptedHasId(f: PersonField, k: string)
    requires NewPatternMatcher(PersonPattern(f)).Accepts(k)
    ensures |IDs(k)| > 0
  {
    PrefixesPlain();
    AcceptedKeyHasId(PersonPrefix, "." + PersonFieldName(f), k);
  }

  lemma LeagueKeyAcceptedHasId(k: string)
    requires NewPatternMatcher(LeagueNamePattern()).Accepts(k)
    ensures |IDs(k)| > 0
  {
    PrefixesPlain();
    AcceptedKeyHasId(LeaguePrefix, ".Name", k);
  }

  /** The updater patterns are the paths of the person or league whose id is `*`. */
  lemma PatternShape(prefix: string, name: string)
    ensures FieldKey(prefix, "*", name) == prefix + Wildcard + ("." + name)
  {
    assert FieldKey(prefix, "*", name) == prefix + ("(" + "*" + ")") + ("." + name);
  }

  lemma PrefixesPlain()
    ensures '(' !in PersonPrefix && '(' !in LeaguePrefix
  {
    forall i | 0 <= i < |PersonPrefix| ensures PersonPrefix[i] != '(' {
    }
    forall i | 0 <= i < |LeaguePrefix| ensures LeaguePrefix[i] != '(' {
    }
  }

  /**
   * The updater of field f catches a person's path for field g exactly when
   * g is f, and hands over the person's id: a field written back by a client
   * reaches the same person and the same field.
   */
  lemma {:induction false} PersonPatternSelects(id: string, f: PersonField, g: PersonField)
    requires ')' !in id
    ensures NewPatternMatcher(PersonPattern(f)).Accepts(PersonKey(id, g)) <==> f == g
    ensures IDs(PersonKey(id, g)) == [id]
  {
    var b, r := "." + PersonFieldName(f), "." + PersonFieldName(g);
    PrefixesPlain();
    FieldNamesPlain(f, LeagueID);
    FirstWildcardAfter(PersonPrefix, b);
    assert NewPatternMatcher(PersonPattern(f)) == Complex(PersonPattern(f));
    assert PersonKey(id, g) == PersonPrefix + "(" + id + ")" + r;
    ConsumeWildcard(PersonPrefix, b, id, r);
    DotWordPlain(PersonFieldName(f));
    NoWildcard(b);
    assert WildcardPass(b, r) == Decided(TailMatch(b, r));
    TailOfFields(f, g);
    FieldNamesPlain(g, LeagueID);
    FieldKeyIds(PersonPrefix, id, PersonFieldName(g));
  }

  lemma DotWordPlain(name: string)
    requires Plain(name)
    ensures '(' !in "." + name
  {
    forall i | 0 <= i < |name| + 1 ensures ("." + name)[i] != '(' {
      if i > 0 { assert ("." + name)[i] == name[i - 1]; }
    }
  }

  lemma TailOfFields(f: PersonField, g: PersonField)
    ensures TailMatch("." + PersonFieldName(f), "." + PersonFieldName(g)) <==> f == g
  {
    var b, r := "." + PersonFieldName(f), "." + PersonFieldName(g);
    var name := PersonFieldName(g);
    FieldNamesPlain(f, LeagueID);
    FieldNamesPlain(g, LeagueID);
    if f != g {
      assert b != r;
      if |b| < |r| {
        assert r[|b|] == name[|b| - 1];
      }
      assert !HasPrefix(r, b + ".");
      assert b[|b| - 1] == PersonFieldName(f)[|b| - 2];
    }
  }

  /** The league Name updater catches a league's Name path, and not its ID path. */
  lemma {:induction false} LeaguePatternSelects(id: string, g: LeagueField)
    requires ')' !in id
    ensures NewPatternMatcher(LeagueNamePattern()).Accepts(LeagueKey(id, g)) <==> g == LeagueName
    ensures IDs(LeagueKey(id, g)) == [id]
  {
    var r := "." + LeagueFieldName(g);
    assert LeagueKey(id, g) == LeaguePrefix + "(" + id + ")" + r;
    LeagueNameAccepts(id, r);
    LeagueNameTail(g);
    PrefixesPlain();
    FieldNamesPlain(PersonID, g);
    FieldKeyIds(LeaguePrefix, id, LeagueFieldName(g));
  }

  /** The league Name pattern skips any id and leaves the tail rules to decide the rest. */
  lemma LeagueNameAccepts(id: string, r: string)
    requires ')' !in id
    ensures NewPatternMatcher(LeagueNamePattern()).Accepts(LeaguePrefix + "(" + id + ")" + r) <==> TailMatch(".Name", r)
  {
    assert LeagueNamePattern() == LeaguePrefix + Wildcard + ".Name";
    PrefixesPlain();
    FirstWildcardAfter(LeaguePrefix, ".Name");
    assert NewPatternMatcher(LeagueNamePattern()) == Complex(LeagueNamePattern());
    ConsumeWildcard(LeaguePrefix, ".Name", id, r);
    NoWildcard(".Name");
    assert WildcardPass(".Name", r) == Decided(TailMatch(".Name", r));
  }

  lemma LeagueNameTail(g: LeagueField)
    ensures TailMatch(".Name", "." + LeagueFieldName(g)) <==> g == LeagueName
  {
    var r := "." + LeagueFieldName(g);
    assert g == LeagueID ==> !HasPrefix(r, ".Name.") && r != ".Name";
  }

  // ----------------------------------------------------------------- people

  /** A Person: five text fields, published under the paths of `base`. */
  class Person {
    /** The id the paths were built from; SetID changes `id`, not the paths. */
    const base: string
    var id: string
    var name: string
    var legalName: string
    var insuranceNumber: string
    var number: string

    /** The getters ID, Name, LegalName, InsuranceNumber and Number. */
    function Field(f: PersonField): string
      reads this
    {
      match f
      case PersonID => id
      case PersonName => name
      case LegalName => legalName
      case InsuranceNumber => insuranceNumber
      case Number => number
    }

    /** Every field is published, as text, under the person's paths. */
    ghost predicate Published(values: map<string, string>)
      reads this
    {
      forall g :: FieldStored(values, PersonKey(base, g), Field(g))
    }

    /** &Person{...}: every field the empty string. */
    constructor(base: string)
      ensures this.base == base && forall f :: Field(f) == ""
    {
      this.base := base;
      id, name, legalName, insuranceNumber, number := "", "", "", "", "";
    }
  }

  /** A League: an id and a name. */
  class League {
    const base: string
    var id: string
    var name: string

    /** The getters ID and Name. */
    function Field(f: LeagueField): string
      reads this
    {
      match f
      case LeagueID => id
      case LeagueName => name
    }

    ghost predicate Published(values: map<string, string>)
      reads this
    {
      forall g :: FieldStored(values, LeagueKey(base, g), Field(g))
    }

    constructor(base: string)
      ensures this.base == base && forall f :: Field(f) == ""
    {
      this.base := base;
      id, name := "", "";
    }
  }

  /** `k` is published with this text. */
  predicate FieldStored(values: map<string, string>, k: string, text: string)
  {
    k in values && values[k] == text
  }

  /** Every field of every person is published with its value. */
  ghost predicate PersonsAgree(ps: map<string, Person>, values: map<string, string>)
    reads set id | id in ps :: ps[id]
  {
    forall id :: id in ps ==> ps[id].Published(values)
  }

  ghost predicate LeaguesAgree(ls: map<string, League>, values: map<string, string>)
    reads set id | id in ls :: ls[id]
  {
    forall id :: id in ls ==> ls[id].Published(values)
  }

  /** The other fields of a person live at other paths. */
  lemma OtherField(id: string, f: PersonField, g: PersonField)
    requires f != g
    ensures PersonKey(id, f) != PersonKey(id, g)
  {
    if PersonKey(id, f) == PersonKey(id, g) {
      PersonKeyInjective(id, f, id, g);
    }
  }

  lemma OtherLeagueField(id: string, f: LeagueField, g: LeagueField)
    requires f != g
    ensures LeagueKey(id, f) != LeagueKey(id, g)
  {
    if LeagueKey(id, f) == LeagueKey(id, g) {
      LeagueKeyInjective(id, f, id, g);
    }
  }

  /** People and leagues are published under different paths. */
  lemma PersonNotLeague(a: string, f: PersonField, b: string, g: LeagueField)
    ensures PersonKey(a, f) != LeagueKey(b, g)
  {
    assert PersonKey(a, f)[8] == 'P';
    assert LeagueKey(b, g)[8] == 'L';
  }

  /** A write to another person's path leaves a person published. */
  lemma PublishedAfterWrite(q: Person, w: map<string, string>, id: string, f: PersonField, v: string)
    requires q.Published(w) && q.base != id
    ensures q.Published(w[PersonKey(id, f) := v])
  {
    forall g ensures PersonKey(q.base, g) != PersonKey(id, f) {
      if PersonKey(q.base, g) == PersonKey(id, f) {
        PersonKeyInjective(q.base, g, id, f);
      }
    }
  }

  /** A write to a league's path leaves every person published. */
  lemma PersonAfterLeagueWrite(q: Person, w: map<string, string>, id: string, f: LeagueField, v: string)
    requires q.Published(w)
    ensures q.Published(w[LeagueKey(id, f) := v])
  {
    forall g ensures PersonKey(q.base, g) != LeagueKey(id, f) {
      PersonNotLeague(q.base, g, id, f);
    }
  }

  lemma LeaguePublishedAfterWrite(q: League, w: map<string, string>, id: string, f: LeagueField, v: string)
    requires q.Published(w) && q.base != id
    ensures q.Published(w[LeagueKey(id, f) := v])
  {
    forall g ensures LeagueKey(q.base, g) != LeagueKey(id, f) {
      if LeagueKey(q.base, g) == LeagueKey(id, f) {
        LeagueKeyInjective(q.base, g, id, f);
      }
    }
  }

  lemma LeagueAfterPersonWrite(q: League, w: map<string, string>, id: string, f: PersonField, v: string)
    requires q.Published(w)
    ensures q.Published(w[PersonKey(id, f) := v])
  {
    forall g ensures LeagueKey(q.base, g) != PersonKey(id, f) {
      PersonNotLeague(id, f, q.base, g);
    }
  }

  lemma RemoveAfterInsert<K, V>(m: map<K, V>, k: K, v: V)
    ensures m[k := v] - {k} == m - {k}
  {
  }

  /** What blankPerson's five writes leave at the person's paths: the id, then empty texts. */
  function BlankWritten(w: map<string, string>, id: string): map<string, string>
  {
    w[PersonKey(id, PersonID) := id][PersonKey(id, PersonName) := ""][PersonKey(id, LegalName) := ""]
     [PersonKey(id, InsuranceNumber) := ""][PersonKey(id, Number) := ""]
  }

  /** The id written first survives the four empty writes after it. */
  lemma BlankWrites(w: map<string, string>, id: string)
    ensures FieldStored(BlankWritten(w, id), PersonKey(id, PersonID), id)
    ensures forall g :: g != PersonID ==> FieldStored(BlankWritten(w, id), PersonKey(id, g), "")
  {
    forall g | g != PersonID ensures PersonKey(id, PersonID) != PersonKey(id, g) {
      OtherField(id, PersonID, g);
    }
  }

  /** A person whose fields are all published joins the others. */
  lemma AgreeJoin(ps: map<string, Person>, w: map<string, string>, p: Person)
    requires p.base in ps && ps[p.base] == p
    requires PersonsAgree(ps - {p.base}, w) && p.Published(w)
    ensures PersonsAgree(ps, w)
  {
    forall id | id in ps ensures ps[id].Published(w) {
      if id != p.base {
        assert id in ps - {p.base};
      }
    }
  }

  lemma LeagueAgreeJoin(ls: map<string, League>, w: map<string, string>, l: League)
    requires l.base in ls && ls[l.base] == l
    requires LeaguesAgree(ls - {l.base}, w) && l.Published(w)
    ensures LeaguesAgree(ls, w)
  {
    forall id | id in ls ensures ls[id].Published(w) {
      if id != l.base {
        assert id in ls - {l.base};
      }
    }
  }

  /** The callback numbers the updaters are registered with. */
  function PersonCallback(f: PersonField): nat
  {
    match f
    case PersonID => 10
    case PersonName => 11
    case LegalName => 12
    case InsuranceNumber => 13
    case Number => 14
  }

  const LeagueNameCallback: nat := 15

  /**
   * The package's globals: the two maps, and the entries its setters have
   * written to the state store, as text.
   */
  class Registry {
    var persons: map<string, Person>
    var leagues: map<string, League>
    var published: map<string, string>

    ghost function PersonObjs(): set<Person>
      reads this
    {
      set id | id in persons :: persons[id]
    }

    ghost function LeagueObjs(): set<League>
      reads this
    {
      set id | id in leagues :: leagues[id]
    }

    /** Every record is filed under the id its paths were built from. */
    ghost predicate Filed()
      reads this, PersonObjs(), LeagueObjs()
    {
      && (forall id :: id in persons ==> persons[id].base == id)
      && (forall id :: id in leagues ==> leagues[id].base == id)
    }

    /** Filed, and the store shows every field of every record. */
    ghost predicate Valid()
      reads this, PersonObjs(), LeagueObjs()
    {
      Filed() && PersonsAgree(persons, published) && LeaguesAgree(leagues, published)
    }

    constructor()
      ensures Valid() && persons == map[] && leagues == map[] && published == map[]
    {
      persons, leagues, published := map[], map[], map[];
    }

    /**
     * A person setter (SetID, SetName, SetLegalName, SetInsuranceNumber,
     * SetNumber): the field, then the text at the field's path.
     */
    method WritePerson(p: Person, f: PersonField, v: string) returns (err: Option<Error>)
      requires Filed() && PersonsAgree(persons - {p.base}, published) && LeaguesAgree(leagues, published)
      modifies this`published, p
      ensures Filed() && PersonsAgree(persons - {p.base}, published) && LeaguesAgree(leagues, published)
      ensures err == None && p.Field(f) == v && forall g :: g != f ==> p.Field(g) == old(p.Field(g))
      ensures published == old(published)[PersonKey(p.base, f) := v]
    {
      ghost var w := published;
      match f {
        case PersonID => p.id := v;
        case PersonName => p.name := v;
        case LegalName => p.legalName := v;
        case InsuranceNumber => p.insuranceNumber := v;
        case Number => p.number := v;
      }
      published := published[PersonKey(p.base, f) := v];
      forall id | id in persons - {p.base} ensures persons[id].Published(published) {
        var q := persons[id];
        assert q != p && q.Published(w);
        PublishedAfterWrite(q, w, p.base, f, v);
      }
      forall id | id in leagues ensures leagues[id].Published(published) {
        LeagueAfterPersonWrite(leagues[id], w, p.base, f, v);
      }
      err := None;
    }

    /** A setter called on a person of the registry. */
    method SetPersonField(p: Person, f: PersonField, v: string) returns (err: Option<Error>)
      requires Valid() && p.base in persons && persons[p.base] == p
      modifies this`published, p
      ensures Valid() && err == None
      ensures p.Field(f) == v && forall g :: g != f ==> p.Field(g) == old(p.Field(g))
      ensures published == old(published)[PersonKey(p.base, f) := v]
    {
      assert PersonsAgree(persons - {p.base}, published);
      ghost var w := published;
      assert p.Published(w);
      err := WritePerson(p, f, v);
      forall g ensures FieldStored(published, PersonKey(p.base, g), p.Field(g)) {
        if g != f {
          OtherField(p.base, f, g);
        }
      }
      AgreeJoin(persons, published, p);
    }

    /** blankPerson: a fresh person with empty fields, published, replacing any under `id`. */
    method BlankPerson(id: string) returns (p: Person)
      requires Valid()
      modifies this
      ensures Valid() && fresh(p)
      ensures persons == old(persons)[id := p] && leagues == old(leagues)
      ensures p.base == id && p.Field(PersonID) == id
      ensures forall f :: f != PersonID ==> p.Field(f) == ""
    {
      p := new Person(id);
      ghost var rest := persons - {id};
      assert PersonsAgree(rest, published);
      WriteBlank(p);
      persons := persons[id := p];
      RemoveAfterInsert(old(persons), id, p);
      AgreeJoin(persons, published, p);
    }

    /** blankPerson's five writes: the id, then an empty text for every other field. */
    method WriteBlank(p: Person)
      requires Filed() && PersonsAgree(persons - {p.base}, published) && LeaguesAgree(leagues, published)
      modifies this`published, p
      ensures Filed() && PersonsAgree(persons - {p.base}, published) && LeaguesAgree(leagues, published)
      ensures p.Published(published) && p.Field(PersonID) == p.base
      ensures forall f :: f != PersonID ==> p.Field(f) == ""
      ensures published == BlankWritten(old(published), p.base)
    {
      ghost var w := published;
      var err := WritePerson(p, PersonID, p.base);
      err := WritePerson(p, PersonName, "");
      err := WritePerson(p, LegalName, "");
      err := WritePerson(p, InsuranceNumber, "");
      err := WritePerson(p, Number, "");
      BlankWrites(w, p.base);
    }

    /** NewPerson: a blank person, then every field but the id from the arguments. */
    method NewPerson(id: string, name: string, legalName: string, insuranceNumber: string, number: string)
      returns (p: Person)
      requires Valid()
      modifies this
      ensures Valid() && fresh(p)
      ensures persons == old(persons)[id := p] && leagues == old(leagues)
      ensures p.Field(PersonID) == id && p.Field(PersonName) == name && p.Field(LegalName) == legalName
      ensures p.Field(InsuranceNumber) == insuranceNumber && p.Field(Number) == number
    {
      p := BlankPerson(id);
      var _ := SetPersonField(p, PersonName, name);
      var _ := SetPersonField(p, LegalName, legalName);
      var _ := SetPersonField(p, InsuranceNumber, insuranceNumber);
      var _ := SetPersonField(p, Number, number);
    }

    /** findPerson: the person under the first id of `k`, created blank if missing. */
    method FindPerson(k: string) returns (p: Person)
      requires Valid() && |IDs(k)| > 0
      modifies this
      ensures Valid() && leagues == old(leagues)
      ensures IDs(k)[0] in persons && persons[IDs(k)[0]] == p && p.base == IDs(k)[0]
      ensures IDs(k)[0] in old(persons) ==> persons == old(persons) && p == old(persons[IDs(k)[0]])
      ensures IDs(k)[0] !in old(persons) ==>
        fresh(p) && persons == old(persons)[IDs(k)[0] := p] &&
        p.Field(PersonID) == IDs(k)[0] && forall f :: f != PersonID ==> p.Field(f) == ""
    {
      var ids := ParseIDs(k);
      var id := ids[0];
      if id in persons {
        p := persons[id];
      } else {
        p := BlankPerson(id);
        assert persons[id := p] == persons;
        persons := persons[id := p];
      }
    }

    /**
     * personSetID, personSetName, ...: the person under the key's first id,
     * created if missing, gets the field; the result is always nil.
     */
    method PersonUpdate(f: PersonField, k: string, v: string) returns (err: Option<Error>)
      requires Valid() && |IDs(k)| > 0
      modifies this, PersonObjs()
      ensures Valid() && err == None && leagues == old(leagues)
      ensures IDs(k)[0] in persons && persons[IDs(k)[0]].Field(f) == v
      ensures FieldStored(published, PersonKey(IDs(k)[0], f), v)
    {
      var p := FindPerson(k);
      var _ := SetPersonField(p, f, v);
      err := None;
    }

    // --------------------------------------------------------------- leagues

    /** A league setter (SetID, SetName): the field, then the text at the field's path. */
    method WriteLeague(l: League, f: LeagueField, v: string) returns (err: Option<Error>)
      requires Filed() && PersonsAgree(persons, published) && LeaguesAgree(leagues - {l.base}, published)
      modifies this`published, l
      ensures Filed() && PersonsAgree(persons, published) && LeaguesAgree(leagues - {l.base}, published)
      ensures err == None && l.Field(f) == v && forall g :: g != f ==> l.Field(g) == old(l.Field(g))
      ensures published == old(published)[LeagueKey(l.base, f) := v]
    {
      ghost var w := published;
      match f {
        case LeagueID => l.id := v;
        case LeagueName => l.name := v;
      }
      published := published[LeagueKey(l.base, f) := v];
      forall id | id in leagues - {l.base} ensures leagues[id].Published(published) {
        var q := leagues[id];
        assert q != l && q.Published(w);
        LeaguePublishedAfterWrite(q, w, l.base, f, v);
      }
      forall id | id in persons ensures persons[id].Published(published) {
        PersonAfterLeagueWrite(persons[id], w, l.base, f, v);
      }
      err := None;
    }

    /** A setter called on a league of the registry. */
    method SetLeagueField(l: League, f: LeagueField, v: string) returns (err: Option<Error>)
      requires Valid() && l.base in leagues && leagues[l.base] == l
      modifies this`published, l
      ensures Valid() && err == None
      ensures l.Field(f) == v && forall g :: g != f ==> l.Field(g) == old(l.Field(g))
      ensures published == old(published)[LeagueKey(l.base, f) := v]
    {
      assert LeaguesAgree(leagues - {l.base}, published);
      ghost var w := published;
      assert l.Published(w);
      err := WriteLeague(l, f, v);
      forall g ensures FieldStored(published, LeagueKey(l.base, g), l.Field(g)) {
        if g != f {
          OtherLeagueField(l.base, f, g);
        }
      }
      LeagueAgreeJoin(leagues, published, l);
    }

    /** blankLeague: a fresh league with its id and an empty name, replacing any under `id`. */
    method BlankLeague(id: string) returns (l: League)
      requires Valid()
      modifies this
      ensures Valid() && fresh(l)
      ensures leagues == old(leagues)[id := l] && persons == old(persons)
      ensures l.base == id && l.Field(LeagueID) == id && l.Field(LeagueName) == ""
    {
      l := new League(id);
      ghost var rest := leagues - {id};
      assert LeaguesAgree(rest, published);
      var err := WriteLeague(l, LeagueID, id);
      err := WriteLeague(l, LeagueName, "");
      OtherLeagueField(id, LeagueID, LeagueName);
      assert l.Published(published);
      leagues := leagues[id := l];
      RemoveAfterInsert(old(leagues), id, l);
      LeagueAgreeJoin(leagues, published, l);
    }

    /** NewLeague: a blank league given its name; the other arguments are not used. */
    method NewLeague(id: string, name: string, legalName: string, insuranceNumber: string, number: string)
      returns (l: League)
      requires Valid()
      modifies this
      ensures Valid() && fresh(l)
      ensures leagues == old(leagues)[id := l] && persons == old(persons)
      ensures l.Field(LeagueID) == id && l.Field(LeagueName) == name
    {
      l := BlankLeague(id);
      var _ := SetLeagueField(l, LeagueName, name);
    }

    /** findLeague: the league under the first id of `k`, created blank if missing. */
    method FindLeague(k: string) returns (l: League)
      requires Valid() && |IDs(k)| > 0
      modifies this
      ensures Valid() && persons == old(persons)
      ensures IDs(k)[0] in leagues && leagues[IDs(k)[0]] == l && l.base == IDs(k)[0]
      ensures IDs(k)[0] in old(leagues) ==> leagues == old(leagues) && l == old(leagues[IDs(k)[0]])
      ensures IDs(k)[0] !in old(leagues) ==>
        fresh(l) && leagues == old(leagues)[IDs(k)[0] := l] &&
        l.Field(LeagueID) == IDs(k)[0] && l.Field(LeagueName) == ""
    {
      var ids := ParseIDs(k);
      var id := ids[0];
      if id in leagues {
        l := leagues[id];
      } else {
        l := BlankLeague(id);
        assert leagues[id := l] == leagues;
        leagues := leagues[id := l];
      }
    }

    /** leagueSetID and leagueSetName: find or create the league, set the field, succeed. */
    method LeagueUpdate(f: LeagueField, k: string, v: string) returns (err: Option<Error>)
      requires Valid() && |IDs(k)| > 0
      modifies this, LeagueObjs()
      ensures Valid() && err == None && persons == old(persons)
      ensures IDs(k)[0] in leagues && leagues[IDs(k)[0]].Field(f) == v
      ensures FieldStored(published, LeagueKey(IDs(k)[0], f), v)
    {
      var l := FindLeague(k);
      var _ := SetLeagueField(l, f, v);
      err := None;
    }
  }

  /** The registry after Initialize's six registrations, in order. */
  function Initialized(m: map<string, StateUpdater.Updater>): map<string, StateUpdater.Updater>
  {
    m[LeagueNamePattern() := PatternUpdater(LeagueNamePattern(), 1, LeagueNameCallback)]
     [PersonPattern(PersonID) := PatternUpdater(PersonPattern(PersonID), 0, PersonCallback(PersonID))]
     [PersonPattern(PersonName) := PatternUpdater(PersonPattern(PersonName), 0, PersonCallback(PersonName))]
     [PersonPattern(LegalName) := PatternUpdater(PersonPattern(LegalName), 0, PersonCallback(LegalName))]
     [PersonPattern(InsuranceNumber) := PatternUpdater(PersonPattern(InsuranceNumber), 0, PersonCallback(InsuranceNumber))]
     [PersonPattern(Number) := PatternUpdater(PersonPattern(Number), 0, PersonCallback(Number))]
  }

  /**
   * After Initialize, every person field has its own string pattern updater
   * at priority 0, the league name one at priority 1, so a grouped set
   * applies people before league names; no other updater changed.
   */
  lemma {:induction false} InitializedRoutes(m: map<string, StateUpdater.Updater>, f: PersonField)
    ensures PersonPattern(f) in Initialized(m)
    ensures var u := Initialized(m)[PersonPattern(f)];
      u.name == PersonPattern(f) && u.groupPriority == 0 && u.isPattern && u.kind == KString && u.callback == PersonCallback(f)
    ensures LeagueNamePattern() in Initialized(m)
    ensures Initialized(m)[LeagueNamePattern()].groupPriority == 1
  {
    InitializedPersonRoute(m, f);
    InitializedLeagueRoute(m);
  }

  /** Only registrations of the same pattern made later could replace a person field's updater. */
  lemma InitializedPersonRoute(m: map<string, StateUpdater.Updater>, f: PersonField)
    ensures PersonPattern(f) in Initialized(m)
    ensures Initialized(m)[PersonPattern(f)] == PatternUpdater(PersonPattern(f), 0, PersonCallback(f))
  {
    match f {
      case PersonID => InitializedPersonID(m);
      case PersonName => InitializedPersonName(m);
      case LegalName => InitializedLegalName(m);
      case InsuranceNumber => InitializedInsuranceNumber(m);
      case Number => InitializedNumber(m);
    }
  }

  lemma InitializedPersonID(m: map<string, StateUpdater.Updater>)
    ensures PersonPattern(PersonID) in Initialized(m)
    ensures Initialized(m)[PersonPattern(PersonID)] == PatternUpdater(PersonPattern(PersonID), 0, PersonCallback(PersonID))
  {
    PersonPatternsDiffer(PersonName, PersonID);
    PersonPatternsDiffer(LegalName, PersonID);
    PersonPatternsDiffer(InsuranceNumber, PersonID);
    PersonPatternsDiffer(Number, PersonID);
  }

  lemma InitializedPersonName(m: map<string, StateUpdater.Updater>)
    ensures PersonPattern(PersonName) in Initialized(m)
    ensures Initialized(m)[PersonPattern(PersonName)] == PatternUpdater(PersonPattern(PersonName), 0, PersonCallback(PersonName))
  {
    PersonPatternsDiffer(LegalName, PersonName);
    PersonPatternsDiffer(InsuranceNumber, PersonName);
    PersonPatternsDiffer(Number, PersonName);
  }

  lemma InitializedLegalName(m: map<string, StateUpdater.Updater>)
    ensures PersonPattern(LegalName) in Initialized(m)
    ensures Initialized(m)[PersonPattern(LegalName)] == PatternUpdater(PersonPattern(LegalName), 0, PersonCallback(LegalName))
  {
    PersonPatternsDiffer(InsuranceNumber, LegalName);
    PersonPatternsDiffer(Number, LegalName);
  }

  lemma InitializedInsuranceNumber(m: map<string, StateUpdater.Updater>)
    ensures PersonPattern(InsuranceNumber) in Initialized(m)
    ensures Initialized(m)[PersonPattern(InsuranceNumber)] == PatternUpdater(PersonPattern(InsuranceNumber), 0, PersonCallback(InsuranceNumber))
  {
    PersonPatternsDiffer(Number, InsuranceNumber);
  }

  lemma InitializedNumber(m: map<string, StateUpdater.Updater>)
    ensures PersonPattern(Number) in Initialized(m)
    ensures Initialized(m)[PersonPattern(Number)] == PatternUpdater(PersonPattern(Number), 0, PersonCallback(Number))
  {
  }

  /** No person pattern replaces the league Name updater registered first. */
  lemma InitializedLeagueRoute(m: map<string, StateUpdater.Updater>)
    ensures LeagueNamePattern() in Initialized(m)
    ensures Initialized(m)[LeagueNamePattern()] == PatternUpdater(LeagueNamePattern(), 1, LeagueNameCallback)
  {
    PersonPatternNotLeague(PersonID);
    PersonPatternNotLeague(PersonName);
    PersonPatternNotLeague(LegalName);
    PersonPatternNotLeague(InsuranceNumber);
    PersonPatternNotLeague(Number);
  }

  /** Initialize replaces no updater outside its own six patterns. */
  lemma InitializedKeepsOthers(m: map<string, StateUpdater.Updater>, k: string)
    requires k in m && !LeaguesPattern(k)
    ensures k in Initialized(m) && Initialized(m)[k] == m[k]
  {
    assert k != LeagueNamePattern();
    forall g ensures k != PersonPattern(g) {
    }
  }

  /** The six patterns Initialize registers. */
  predicate LeaguesPattern(k: string)
  {
    k == LeagueNamePattern() || exists g :: k == PersonPattern(g)
  }

  lemma PersonPatternNotLeague(g: PersonField)
    ensures PersonPattern(g) != LeagueNamePattern()
  {
    PatternShape(PersonPrefix, PersonFieldName(g));
    PatternShape(LeaguePrefix, LeagueFieldName(LeagueName));
    PersonNotLeague("*", g, "*", LeagueName);
  }

  lemma PersonPatternsDiffer(g: PersonField, h: PersonField)
    requires g != h
    ensures PersonPattern(g) != PersonPattern(h)
  {
    PatternShape(PersonPrefix, PersonFieldName(g));
    PatternShape(PersonPrefix, PersonFieldName(h));
    OtherField("*", g, h);
  }

  /** RegisterPatternUpdaterString(name, priority, callback) */
  function PatternUpdater(name: string, priority: nat, callback: nat): StateUpdater.Updater
  {
    StateUpdater.Updater(name, priority, true, KString, callback, NewPatternMatcher(name))
  }

  /** Initialize: the league Name updater at priority 1, the five person updaters at priority 0. */
  method Initialize(registry: StateUpdater.Registry)
    requires registry.Valid()
    modifies registry
    ensures registry.Valid() && registry.updaters == Initialized(old(registry.updaters))
  {
    registry.Register(LeagueNamePattern(), 1, true, KString, LeagueNameCallback);
    registry.Register(PersonPattern(PersonID), 0, true, KString, PersonCallback(PersonID));
    registry.Register(PersonPattern(PersonName), 0, true, KString, PersonCallback(PersonName));
    registry.Register(PersonPattern(LegalName), 0, true, KString, PersonCallback(LegalName));
    registry.Register(PersonPattern(InsuranceNumber), 0, true, KString, PersonCallback(InsuranceNumber));
    registry.Register(PersonPattern(Number), 0, true, KString, PersonCallback(Number));
  }
}
