/** The flat report list: each stored report reduced to id, name, summary,
    kind label and date, the three lists concatenated. */
module AllReports {
  import opened JsText

  /** A stored report as the flat normaliser reads it; absent text is "". */
  datatype Stored = Stored(id: string, name: string, summary: string, detailsDate: string, date: string)

  datatype Flat = Flat(id: string, name: string, summary: string, kind: string, date: string)

  /** `normalizeReport(report, type)`. */
  function NormalizeReport(r: Stored, kind: string): (f: Flat)
    ensures f.id == r.id && f.kind == kind
    ensures f.name == (if r.name == "" then "Sin nombre" else r.name)
    ensures f.summary == r.summary
    ensures f.date == (if r.detailsDate != "" then r.detailsDate else if r.date != "" then r.date else "Sin fecha")
    ensures f.name != "" && f.date != ""
  {
    Flat(r.id, OrElse(r.name, "Sin nombre"), OrElse(r.summary, ""), kind,
         OrElse(OrElse(r.detailsDate, r.date), "Sin fecha"))
  }

  function NormalizeAll(rs: seq<Stored>, kind: string): seq<Flat>
  {
    seq(|rs|, i requires 0 <= i < |rs| => NormalizeReport(rs[i], kind))
  }

  /** `allReports`. */
  function Flatten(daily: seq<Stored>, monthly: seq<Stored>, material: seq<Stored>): seq<Flat>
  {
    NormalizeAll(daily, "Diario") + NormalizeAll(monthly, "Mensual") + NormalizeAll(material, "Materia Prima")
  }

  /** The flat list holds every stored report once, daily ones first, then
      monthly, then material, each labelled with its kind. */
  lemma FlattenLayout(daily: seq<Stored>, monthly: seq<Stored>, material: seq<Stored>)
    ensures var f := Flatten(daily, monthly, material);
      var a, b := |daily|, |daily| + |monthly|;
      |f| == |daily| + |monthly| + |material|
      && (forall i :: 0 <= i < a ==> f[i] == NormalizeReport(daily[i], "Diario"))
      && (forall i :: a <= i < b ==> f[i] == NormalizeReport(monthly[i - a], "Mensual"))
      && (forall i :: b <= i < |f| ==> f[i] == NormalizeReport(material[i - b], "Materia Prima"))
  {
    var f := Flatten(daily, monthly, material);
    var a, b := |daily|, |daily| + |monthly|;
    forall i | a <= i < b
      ensures f[i] == NormalizeReport(monthly[i - a], "Mensual")
    {
      assert f[i] == (NormalizeAll(daily, "Diario") + NormalizeAll(monthly, "Mensual"))[i];
    }
  }
}
