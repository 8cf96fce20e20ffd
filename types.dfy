/** Value types shared by the application shell (types.ts and the state of App.tsx). */
module AppTypes {

  /** A value that may be absent: `undefined` / `null` on the TypeScript side. */
  datatype Option<+T> = None | Some(value: T)

  /** The top-level screen the shell shows (types.ts, enum FeatureMode). */
  datatype FeatureMode = Analysis | Chat | QuickTips | Settings | Profile

  /**
   * A request for a career analysis: the resume or skills text and an optional
   * base64-encoded image. This is the `{text, image?}` record that the shell keeps
   * as its pending analysis.
   */
  datatype AnalysisRequest = AnalysisRequest(text: string, image: Option<string>)
}
