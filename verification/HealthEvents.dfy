/** Health events as fault-quarantine's cold start reads them, and the relation "event e
touches effect x" that decides which event speaks last about an effect. */
module HealthEvents {
  datatype Entity = Entity(kind: string, value: string)

  datatype HealthEvent = HealthEvent(healthy: bool, entities: seq<Entity>, codes: seq<string>)

  /** One stored annotation effect: an entity (blank for a check-wide fault) and a code. */
  datatype Effect = Effect(entity: Entity, code: string)

  const BLANK: Entity := Entity("", "")

  /** An event without codes stands for the single empty code. */
  function NormalizedCodes(codes: seq<string>): seq<string> {
    if codes == [] then [""] else codes
  }

  /** An event without entities stands for the blank entity. */
  function NormalizedEntities(entities: seq<Entity>): seq<Entity> {
    if entities == [] then [BLANK] else entities
  }

  predicate TouchesEntity(e: HealthEvent, entity: Entity) {
    if e.entities == [] then e.healthy || entity == BLANK else entity in e.entities
  }

  predicate TouchesCode(e: HealthEvent, code: string) {
    code in NormalizedCodes(e.codes) || (e.healthy && e.codes == [])
  }

  /** newerShadowsStoredEffect: a healthy event without entities reaches every entity, and
  one without codes every code; a fault reaches exactly what it names. */
  predicate Touches(e: HealthEvent, x: Effect) {
    TouchesEntity(e, x.entity) && TouchesCode(e, x.code)
  }

  /** The product of an event's entities and codes. */
  function NamedEffects(e: HealthEvent): set<Effect> {
    set n, c | n in NormalizedEntities(e.entities) && c in NormalizedCodes(e.codes) :: Effect(n, c)
  }

  lemma FaultTouchesWhatItNames(e: HealthEvent, x: Effect)
    requires !e.healthy
    ensures Touches(e, x) <==> x in NamedEffects(e)
    ensures Touches(e, x) <==>
      && (if e.entities == [] then x.entity == Entity("", "") else x.entity in e.entities)
      && (if e.codes == [] then x.code == "" else x.code in e.codes)
  {
  }

  /** What a healthy event leaves out, it does not restrict. */
  lemma HealthyTouchesAllItDoesNotRestrict(e: HealthEvent, x: Effect)
    requires e.healthy
    ensures Touches(e, x) <==> (e.entities == [] || x.entity in e.entities) && (e.codes == [] || x.code in e.codes)
  {
  }
}
