/** Field-less enums as form values: the derived parser, its validator, and the derived printer. */
module EnumField {
  import opened Options
  import opened Uncased
  import opened FieldNames

  /** `values`: the `#[field(value = ..)]` attributes of the variant. */
  datatype Variant = Variant(ident: string, values: seq<string>)

  datatype Parsed = Ok(variant: Variant) | InvalidChoice(options: seq<string>)

  function FormValues(v: Variant): (r: seq<FieldName>)
    ensures r != [] && forall f :: f in r ==> f.Nocase?
  {
    if v.values == [] then [Nocase(v.ident)]
    else seq(|v.values|, i requires 0 <= i < |v.values| => Nocase(v.values[i]))
  }

  /** What `UriDisplayQuery` writes for the variant. */
  function Display(v: Variant): string
  {
    if v.values != [] then v.values[0] else v.ident
  }

  function AllValues(vs: seq<Variant>): (r: seq<seq<FieldName>>)
    ensures |r| == |vs| && forall i :: 0 <= i < |vs| ==> r[i] == FormValues(vs[i])
  {
    seq(|vs|, i requires 0 <= i < |vs| => FormValues(vs[i]))
  }

  predicate Fits(v: Variant, value: string)
  {
    exists f :: f in FormValues(v) && Matches(f, value)
  }

  /** The text of every listed value, in order: what the error offers. */
  function Offered(vs: seq<Variant>): seq<string>
  {
    if vs == [] then [] else
      var fs := FormValues(vs[0]);
      seq(|fs|, i requires 0 <= i < |fs| => fs[i].name) + Offered(vs[1..])
  }

  /** The texts a variant goes by: those listed, or else its identifier. */
  function Texts(v: Variant): seq<string> { if v.values == [] then [v.ident] else v.values }

  function AllTexts(vs: seq<Variant>): seq<string>
  {
    if vs == [] then [] else Texts(vs[0]) + AllTexts(vs[1..])
  }

  /** A text fits a variant exactly if it is one of the variant's, in any letter case. */
  lemma FitsMeans(v: Variant, text: string)
    ensures Fits(v, text) <==> exists t :: t in Texts(v) && Fold(text) == Fold(t)
  {
    if t :| t in Texts(v) && Fold(text) == Fold(t) {
      var k :| 0 <= k < |Texts(v)| && Texts(v)[k] == t;
      assert FormValues(v)[k] == Nocase(t) && Matches(FormValues(v)[k], text);
    }
    if f :| f in FormValues(v) && Matches(f, text) {
      var k :| 0 <= k < |FormValues(v)| && FormValues(v)[k] == f;
      assert f == Nocase(Texts(v)[k]);
    }
  }

  /** The error offers every variant's texts, in order; what is printed is the first of the variant's own. */
  lemma {:induction false} OfferedMeans(vs: seq<Variant>)
    ensures Offered(vs) == AllTexts(vs)
    ensures forall v :: v in vs ==> Display(v) == Texts(v)[0]
  {
    if vs != [] {
      OfferedMeans(vs[1..]);
      var fs := FormValues(vs[0]);
      assert seq(|fs|, i requires 0 <= i < |fs| => fs[i].name) == Texts(vs[0]);
    }
  }

  /** `from_value`: the variants' conditions tried in order, then the error. */
  function FromValue(vs: seq<Variant>, value: string): Parsed
  {
    FromValueAmong(vs, value, Offered(vs))
  }

  function FromValueAmong(vs: seq<Variant>, value: string, options: seq<string>): (r: Parsed)
    ensures r.Ok? ==> r.variant in vs && Fits(r.variant, value)
    ensures r.InvalidChoice? <==> forall v :: v in vs ==> !Fits(v, value)
    ensures r.InvalidChoice? ==> r.options == options
  {
    if vs == [] then InvalidChoice(options)
    else if Fits(vs[0], value) then Ok(vs[0])
    else FromValueAmong(vs[1..], value, options)
  }

  /** The validator: at least one variant, and no two values that one text could mean. */
  ghost predicate Valid(vs: seq<Variant>)
  {
    vs != [] && Accepted(AllValues(vs))
  }

  /** The validator as the derive runs it. */
  method Validate(vs: seq<Variant>) returns (ok: bool, clash: Option<(Dup, Dup)>)
    ensures ok <==> Valid(vs)
    ensures clash.Some? ==> var (a, b) := clash.value;
                            Clashing(Flat(AllValues(vs)), a.value, b.value)
                            && (a.prefix == b.prefix <==> a.key == b.key)
  {
    clash := None;
    if vs == [] {
      return false, None;
    }
    clash := FirstDuplicate(AllValues(vs));
    ok := clash.None?;
  }

  lemma OneVariantFits(vs: seq<Variant>, value: string, v: Variant, w: Variant)
    requires Valid(vs) && v in vs && w in vs && Fits(v, value) && Fits(w, value)
    ensures v == w
  {
    var k, l :| 0 <= k < |vs| && vs[k] == v && 0 <= l < |vs| && vs[l] == w;
    var f, g :| f in FormValues(v) && Matches(f, value) && g in FormValues(w) && Matches(g, value);
    var a :| 0 <= a < |FormValues(v)| && FormValues(v)[a] == f;
    var b :| 0 <= b < |FormValues(w)| && FormValues(w)[b] == g;
    AcceptedIsUnambiguous(AllValues(vs), value, k, a, l, b);
  }

  /** Parsing what was printed, in any letter case, gives the variant back. */
  lemma DisplayParses(vs: seq<Variant>, v: Variant, text: string)
    requires Valid(vs) && v in vs && Fold(text) == Fold(Display(v))
    ensures FromValue(vs, text) == Ok(v)
  {
    assert Matches(FormValues(v)[0], text) && FormValues(v)[0] in FormValues(v);
    assert Fits(v, text);
    var r := FromValue(vs, text);
    OneVariantFits(vs, text, r.variant, v);
  }

  /** The answer does not depend on the order in which variants are tested. */
  lemma OrderIsIrrelevant(vs: seq<Variant>, ws: seq<Variant>, text: string)
    requires Valid(vs) && forall v :: v in vs <==> v in ws
    ensures FromValue(vs, text).Ok? <==> FromValue(ws, text).Ok?
    ensures FromValue(vs, text).Ok? ==> FromValue(ws, text) == FromValue(vs, text)
  {
    var r, q := FromValue(vs, text), FromValue(ws, text);
    if r.Ok? && q.Ok? {
      OneVariantFits(vs, text, r.variant, q.variant);
    }
  }

  /** Conditions are tried in order: the first variant that fits wins. */
  lemma {:induction false} FirstFitWins(vs: seq<Variant>, k: nat, text: string, options: seq<string>)
    requires k < |vs| && Fits(vs[k], text) && forall m :: 0 <= m < k ==> !Fits(vs[m], text)
    ensures FromValueAmong(vs, text, options) == Ok(vs[k])
  {
    if k > 0 {
      assert !Fits(vs[0], text);
      FirstFitWins(vs[1..], k - 1, text, options);
    }
  }

  /** Without the validator, printing and parsing agree exactly when no earlier variant takes the text. */
  lemma RoundTripUnlessShadowed(vs: seq<Variant>, i: nat)
    requires i < |vs| && forall k :: 0 <= k < i ==> vs[k] != vs[i]
    ensures FromValue(vs, Display(vs[i])) == Ok(vs[i]) <==>
            forall k :: 0 <= k < i ==> !Fits(vs[k], Display(vs[i]))
  {
    var v := vs[i];
    assert FormValues(v)[0] in FormValues(v) && Matches(FormValues(v)[0], Display(v));
    var k := LeastFitting(vs, i, Display(v));
    FirstFitWins(vs, k, Display(v), Offered(vs));
  }

  lemma {:induction false} LeastFitting(vs: seq<Variant>, i: nat, text: string) returns (k: nat)
    requires i < |vs| && Fits(vs[i], text)
    ensures k <= i && Fits(vs[k], text) && forall m :: 0 <= m < k ==> !Fits(vs[m], text)
  {
    if j :| 0 <= j < i && Fits(vs[j], text) {
      k := LeastFitting(vs, j, text);
    } else {
      k := i;
    }
  }
}
