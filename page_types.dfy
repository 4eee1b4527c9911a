/** The values the plan page works with: the plan returned by the backend, its blocks,
    and the reflection record (frontend/app/plan/page.tsx, lines 9-48). */
module PageTypes {
  import opened Wrappers

  datatype Mode = Study | Coding | Admin

  datatype Intensity = Chill | Normal | Grind

  /** The three moods the reflection form offers. */
  datatype Mood = Great | Ok | Tired

  /** One timed unit of work. `minutes` is whatever number the backend sent. */
  datatype Block = Block(title: string, minutes: int, details: string, difficulty: string)

  /** A plan as the page receives it. The backend's plan record has no mode or intensity,
      so in practice both arrive absent. */
  datatype PlanResponse = PlanResponse(
    id: string,
    task: string,
    createdAt: string,
    totalMinutes: int,
    focusTip: string,
    energyLevel: string,
    mode: Option<Mode>,
    intensity: Option<Intensity>,
    plan: seq<Block>)

  /** The canonical reflection record the server returns. */
  datatype Reflection = Reflection(id: string, planId: string, mood: Mood, notes: string, createdAt: string)

  /** The body the page posts when it saves a reflection. */
  datatype ReflectionRequest = ReflectionRequest(planId: string, mood: Mood, notes: string)
}
