/** The fixed interview script (config.py): ten questions, asked in this order. */
module Config {

  const CasQuestions: seq<string> := [
    "Tell me about yourself and your background.",
    "Why are you interested in studying in the UK?",
    "What do you know about your chosen course and university?",
    "How do you plan to finance your studies?",
    "What are your career goals after graduation?",
    "How do you handle challenges and stress?",
    "What extracurricular activities are you involved in?",
    "How do you plan to adapt to life in the UK?",
    "What do you think about the current state of your field of study?",
    "How do you stay organized and manage your time?"
  ]

  /** `len(CAS_QUESTIONS)`: the number of answers that completes an interview. */
  const QuestionCount: nat := |CasQuestions|
}
